/**
 * Ordering and backorder filling, one lock section at a time. A call first reads what it may take,
 * and writes its hold in a later section; between the two other calls run.
 */
module SplitReservation {
  import opened MapTotals
  import opened Reservation

  /** What a call has still to write. */
  datatype Pending =
    | ToHold(sku: SkuId, taken: nat, short: nat)
    | ToBackorder(sku: SkuId, short: nat)
    | ToFill(sku: SkuId, backorder: HoldId, qty: nat)

  /** The engine and the calls between two of their sections. */
  datatype System = System(e: Engine, calls: map<nat, Pending>)

  /** One lock section. */
  datatype Section =
    | Whole(step: Step)
    | ReadOrder(call: nat, sku: SkuId, want: nat)
    | PickFill(call: nat, sku: SkuId, backorder: HoldId)
    | WriteHold(call: nat)
    | WriteBackorder(call: nat)
    | WriteFill(call: nat)

  /** A fill removes the backorder it picked, if it is still there, and holds its quantity. */
  function Filled(e: Engine, hash: SkuId -> nat, sku: SkuId, backorder: HoldId, qty: nat): (r: Engine)
    requires |e.shards| == SHARDS
    ensures |r.shards| == SHARDS
  {
    var st := StateOf(e.shards, hash, sku);
    Engine(Record(e.shards, hash, sku, BackorderFilled(e.nextId, qty),
                  st.(backorders := st.backorders - {backorder}, holds := st.holds[e.nextId := qty])), e.nextId + 1)
  }

  /** A section that does not fit the call's position changes nothing; orders and fills are made of their sections. */
  ghost function Perform(s: System, hash: SkuId -> nat, section: Section): (r: System)
    requires |s.e.shards| == SHARDS
    ensures |r.e.shards| == SHARDS
  {
    match section
    case Whole(step) =>
      if step.OrderStep? || step.FillStep? then s else s.(e := Do(s.e, hash, step))
    case ReadOrder(call, sku, want) =>
      if call in s.calls then s
      else
        var taken := Reservable(Available(StateOf(s.e.shards, hash, sku)), want);
        System(s.e.(shards := Touch(s.e.shards, hash, sku)), s.calls[call := ToHold(sku, taken, want - taken)])
    case PickFill(call, sku, bo) =>
      var st := StateOf(s.e.shards, hash, sku);
      if call in s.calls || bo !in st.backorders || Available(st) < st.backorders[bo] then s
      else s.(calls := s.calls[call := ToFill(sku, bo, st.backorders[bo])])
    case WriteHold(call) =>
      if call !in s.calls || !s.calls[call].ToHold? then s
      else
        var p := s.calls[call];
        System(if p.taken > 0 then PlaceHold(s.e, hash, p.sku, p.taken) else s.e,
               if p.short > 0 then s.calls[call := ToBackorder(p.sku, p.short)] else s.calls - {call})
    case WriteBackorder(call) =>
      if call !in s.calls || !s.calls[call].ToBackorder? then s
      else System(PlaceBackorder(s.e, hash, s.calls[call].sku, s.calls[call].short), s.calls - {call})
    case WriteFill(call) =>
      if call !in s.calls || !s.calls[call].ToFill? then s
      else System(Filled(s.e, hash, s.calls[call].sku, s.calls[call].backorder, s.calls[call].qty), s.calls - {call})
  }

  ghost function PerformAll(s: System, hash: SkuId -> nat, sections: seq<Section>): (r: System)
    requires |s.e.shards| == SHARDS
    ensures |r.e.shards| == SHARDS
  {
    if sections == [] then s
    else Perform(PerformAll(s, hash, sections[..|sections| - 1]), hash, sections[|sections| - 1])
  }

  // ----- What is promised -----

  /** Units of the SKU that the call will hold without looking again. */
  function Owed(p: Pending, sku: SkuId): nat {
    if p.sku != sku then 0
    else match p
      case ToHold(_, taken, _) => taken
      case ToBackorder(_, _) => 0
      case ToFill(_, _, qty) => qty
  }

  function Owes(calls: map<nat, Pending>, sku: SkuId): map<nat, nat> {
    map c | c in calls :: Owed(calls[c], sku)
  }

  ghost function Promised(calls: map<nat, Pending>, sku: SkuId): nat { Total(Owes(calls, sku)) }

  ghost function AvailableIn(s: System, hash: SkuId -> nat, sku: SkuId): int
    requires |s.e.shards| == SHARDS
  {
    Available(StateOf(s.e.shards, hash, sku))
  }

  /** What is available and not promised to a call under way. */
  ghost function Slack(s: System, hash: SkuId -> nat, sku: SkuId): int
    requires |s.e.shards| == SHARDS
  {
    AvailableIn(s, hash, sku) - Promised(s.calls, sku)
  }

  lemma {:induction false} PromisedAdd(calls: map<nat, Pending>, c: nat, p: Pending, sku: SkuId)
    requires c !in calls
    ensures Promised(calls[c := p], sku) == Promised(calls, sku) + Owed(p, sku)
  {
    assert Owes(calls[c := p], sku) == Owes(calls, sku)[c := Owed(p, sku)];
    TotalInsert(Owes(calls, sku), c, Owed(p, sku));
  }

  lemma {:induction false} PromisedRemove(calls: map<nat, Pending>, c: nat, sku: SkuId)
    requires c in calls
    ensures Promised(calls - {c}, sku) == Promised(calls, sku) - Owed(calls[c], sku)
  {
    assert Owes(calls - {c}, sku) == Owes(calls, sku) - {c};
    TotalRemove(Owes(calls, sku), c);
  }

  lemma {:induction false} PromisedReplace(calls: map<nat, Pending>, c: nat, p: Pending, sku: SkuId)
    requires c in calls
    ensures Promised(calls[c := p], sku) == Promised(calls, sku) - Owed(calls[c], sku) + Owed(p, sku)
  {
    PromisedRemove(calls, c, sku);
    PromisedAdd(calls - {c}, c, p, sku);
    assert (calls - {c})[c := p] == calls[c := p];
  }

  /** Ids handed out are below the supply of fresh ones. */
  ghost predicate FreshHolds(e: Engine, hash: SkuId -> nat)
    requires |e.shards| == SHARDS
  {
    forall sku: SkuId, h :: h in StateOf(e.shards, hash, sku).holds ==> h < e.nextId
  }

  /** By how much a section moves the slack of a SKU. */
  ghost function Change(s: System, hash: SkuId -> nat, section: Section, sku: SkuId): int
    requires |s.e.shards| == SHARDS
  {
    var st := StateOf(s.e.shards, hash, sku);
    match section
    case Whole(ReceiveStep(k, qty)) => if k == sku then qty else 0
    case Whole(ReturnStep(k, qty)) => if k == sku then qty else 0
    case Whole(ReserveStep(k, want)) => if k == sku && Available(st) >= want then 0 - want else 0
    case Whole(ReleaseStep(k, h)) => if k == sku && h in st.holds then st.holds[h] else 0
    case ReadOrder(call, k, want) => if k == sku && call !in s.calls then 0 - Reservable(Available(st), want) else 0
    case PickFill(call, k, bo) =>
      if k == sku && call !in s.calls && bo in st.backorders && Available(st) >= st.backorders[bo]
      then (var qty: int := st.backorders[bo]; 0 - qty)
      else 0
    case _ => 0
  }

  lemma {:induction false} HoldAdded(e: Engine, hash: SkuId -> nat, k: SkuId, qty: nat, ev: ReserveEvent,
      backorders: map<HoldId, nat>, sku: SkuId)
    requires |e.shards| == SHARDS && FreshHolds(e, hash)
    ensures var st := StateOf(e.shards, hash, k);
      var after :=
          Engine(Record(e.shards, hash, k, ev, st.(backorders := backorders, holds := st.holds[e.nextId := qty])),
              e.nextId + 1);
      && FreshHolds(after, hash)
      && Available(StateOf(after.shards, hash, sku))
          == Available(StateOf(e.shards, hash, sku)) - if k == sku then qty else 0
  {
    var st := StateOf(e.shards, hash, k);
    Recorded(e.shards, hash, k, ev, st.(backorders := backorders, holds := st.holds[e.nextId := qty]));
    TotalInsert(st.holds, e.nextId, qty);
  }

  lemma {:induction false} WholeMoves(e: Engine, hash: SkuId -> nat, step: Step, sku: SkuId)
    requires |e.shards| == SHARDS && FreshHolds(e, hash) && !step.OrderStep? && !step.FillStep?
    ensures FreshHolds(Do(e, hash, step), hash)
    ensures Available(StateOf(Do(e, hash, step).shards, hash, sku))
         == Available(StateOf(e.shards, hash, sku)) + Change(System(e, map[]), hash, Whole(step), sku)
  {
    var st := StateOf(e.shards, hash, step.sku);
    if Transition(st, e.nextId, step).Some? {
      var (event, next, id) := Transition(st, e.nextId, step).value;
      Recorded(e.shards, hash, step.sku, event, next);
    }
    Touched(e.shards, hash, step.sku);
    match step
    case ReserveStep(k, want) =>
      if Available(st) >= want { HoldAdded(e, hash, k, want, Hold(e.nextId, want), st.backorders, sku); }
    case ConfirmStep(_, h) => if h in st.holds { TotalRemove(st.holds, h); }
    case ReleaseStep(_, h) => if h in st.holds { TotalRemove(st.holds, h); }
    case _ =>
  }

  /** Writing moves no slack: what it takes was promised. Reading promises what it takes. */
  lemma {:induction false} SlackMoves(s: System, hash: SkuId -> nat, section: Section, sku: SkuId)
    requires |s.e.shards| == SHARDS && FreshHolds(s.e, hash)
    ensures FreshHolds(Perform(s, hash, section).e, hash)
    ensures Slack(Perform(s, hash, section), hash, sku) == Slack(s, hash, sku) + Change(s, hash, section, sku)
  {
    match section
    case Whole(step) =>
      if !step.OrderStep? && !step.FillStep? { WholeMoves(s.e, hash, step, sku); }
    case ReadOrder(call, k, want) =>
      if call !in s.calls { ReadMoves(s, hash, call, k, want, sku); }
    case PickFill(call, k, bo) =>
      if call !in s.calls { PickMoves(s, hash, call, k, bo, sku); }
    case WriteHold(call) => if call in s.calls { WriteHoldMoves(s, hash, call, sku); }
    case WriteBackorder(call) => if call in s.calls { WriteBackorderMoves(s, hash, call, sku); }
    case WriteFill(call) => if call in s.calls { WriteFillMoves(s, hash, call, sku); }
  }

  lemma {:induction false} ReadMoves(s: System, hash: SkuId -> nat, call: nat, k: SkuId, want: nat, sku: SkuId)
    requires |s.e.shards| == SHARDS && FreshHolds(s.e, hash) && call !in s.calls
    ensures FreshHolds(Perform(s, hash, ReadOrder(call, k, want)).e, hash)
    ensures Slack(Perform(s, hash, ReadOrder(call, k, want)), hash, sku)
        == Slack(s, hash, sku) + Change(s, hash, ReadOrder(call, k, want), sku)
  {
    var taken := Reservable(Available(StateOf(s.e.shards, hash, k)), want);
    var read := ToHold(k, taken, want - taken);
    assert Perform(s, hash, ReadOrder(call, k, want))
        == System(s.e.(shards := Touch(s.e.shards, hash, k)), s.calls[call := read]);
    Touched(s.e.shards, hash, k);
    PromisedAdd(s.calls, call, read, sku);
  }

  lemma {:induction false} PickMoves(s: System, hash: SkuId -> nat, call: nat, k: SkuId, bo: HoldId, sku: SkuId)
    requires |s.e.shards| == SHARDS && call !in s.calls
    ensures Slack(Perform(s, hash, PickFill(call, k, bo)), hash, sku)
        == Slack(s, hash, sku) + Change(s, hash, PickFill(call, k, bo), sku)
  {
    var st := StateOf(s.e.shards, hash, k);
    if bo in st.backorders { PromisedAdd(s.calls, call, ToFill(k, bo, st.backorders[bo]), sku); }
  }

  lemma {:induction false} WriteHoldMoves(s: System, hash: SkuId -> nat, call: nat, sku: SkuId)
    requires |s.e.shards| == SHARDS && FreshHolds(s.e, hash) && call in s.calls
    ensures FreshHolds(Perform(s, hash, WriteHold(call)).e, hash)
    ensures Slack(Perform(s, hash, WriteHold(call)), hash, sku) == Slack(s, hash, sku)
  {
    var p := s.calls[call];
    if p.ToHold? {
      var st := StateOf(s.e.shards, hash, p.sku);
      HoldAdded(s.e, hash, p.sku, p.taken, Hold(s.e.nextId, p.taken), st.backorders, sku);
      if p.short > 0 {
        PromisedReplace(s.calls, call, ToBackorder(p.sku, p.short), sku);
      } else {
        PromisedRemove(s.calls, call, sku);
      }
    }
  }

  lemma {:induction false} WriteBackorderMoves(s: System, hash: SkuId -> nat, call: nat, sku: SkuId)
    requires |s.e.shards| == SHARDS && FreshHolds(s.e, hash) && call in s.calls
    ensures FreshHolds(Perform(s, hash, WriteBackorder(call)).e, hash)
    ensures Slack(Perform(s, hash, WriteBackorder(call)), hash, sku) == Slack(s, hash, sku)
  {
    var p := s.calls[call];
    if p.ToBackorder? {
      var st := StateOf(s.e.shards, hash, p.sku);
      Recorded(s.e.shards, hash, p.sku, BackorderPlaced(s.e.nextId, p.short),
          st.(backorders := st.backorders[s.e.nextId := p.short]));
      PromisedRemove(s.calls, call, sku);
    }
  }

  lemma {:induction false} WriteFillMoves(s: System, hash: SkuId -> nat, call: nat, sku: SkuId)
    requires |s.e.shards| == SHARDS && FreshHolds(s.e, hash) && call in s.calls
    ensures FreshHolds(Perform(s, hash, WriteFill(call)).e, hash)
    ensures Slack(Perform(s, hash, WriteFill(call)), hash, sku) == Slack(s, hash, sku)
  {
    var p := s.calls[call];
    if p.ToFill? {
      var st := StateOf(s.e.shards, hash, p.sku);
      HoldAdded(s.e, hash, p.sku, p.qty, BackorderFilled(s.e.nextId, p.qty), st.backorders - {p.backorder}, sku);
      PromisedRemove(s.calls, call, sku);
    }
  }

  lemma {:induction false} StaysFresh(s: System, hash: SkuId -> nat, sections: seq<Section>)
    requires |s.e.shards| == SHARDS && FreshHolds(s.e, hash)
    ensures FreshHolds(PerformAll(s, hash, sections).e, hash)
  {
    if sections != [] {
      StaysFresh(s, hash, sections[..|sections| - 1]);
      SlackMoves(PerformAll(s, hash, sections[..|sections| - 1]), hash, sections[|sections| - 1], 0);
    }
  }

  // ----- Finishing the calls under way -----

  predicate IsWrite(section: Section) { section.WriteHold? || section.WriteBackorder? || section.WriteFill? }

  lemma {:induction false} WritesKeepSlack(s: System, hash: SkuId -> nat, writes: seq<Section>, sku: SkuId)
    requires |s.e.shards| == SHARDS && FreshHolds(s.e, hash) && forall i :: 0 <= i < |writes| ==> IsWrite(writes[i])
    ensures Slack(PerformAll(s, hash, writes), hash, sku) == Slack(s, hash, sku)
  {
    if writes != [] {
      var n := |writes| - 1;
      WritesKeepSlack(s, hash, writes[..n], sku);
      StaysFresh(s, hash, writes[..n]);
      SlackMoves(PerformAll(s, hash, writes[..n]), hash, writes[n], sku);
    }
  }

  lemma {:induction false} NothingOwed(calls: map<nat, Pending>, sku: SkuId)
    requires forall c :: c in calls ==> Owed(calls[c], sku) == 0
    ensures Promised(calls, sku) == 0
    decreases |calls.Keys|
  {
    var owes := Owes(calls, sku);
    if owes != map[] {
      var c :| c in calls;
      TotalRemove(owes, c);
      assert owes - {c} == Owes(calls - {c}, sku);
      assert (calls - {c}).Keys == calls.Keys - {c};
      NothingOwed(calls - {c}, sku);
    }
  }

  /** However the writes of the calls under way are ordered, once they are done what is available is the slack. */
  lemma {:induction false} FinishedAvailable(s: System, hash: SkuId -> nat, writes: seq<Section>, sku: SkuId)
    requires |s.e.shards| == SHARDS && FreshHolds(s.e, hash) && forall i :: 0 <= i < |writes| ==> IsWrite(writes[i])
    requires var calls := PerformAll(s, hash, writes).calls; forall c :: c in calls ==> Owed(calls[c], sku) == 0
    ensures AvailableIn(PerformAll(s, hash, writes), hash, sku) == Slack(s, hash, sku)
  {
    WritesKeepSlack(s, hash, writes, sku);
    NothingOwed(PerformAll(s, hash, writes).calls, sku);
  }

  /** A section that carries the call's next write. */
  function NextWrite(p: Pending, call: nat): Section {
    match p
    case ToHold(_, _, _) => WriteHold(call)
    case ToBackorder(_, _) => WriteBackorder(call)
    case ToFill(_, _, _) => WriteFill(call)
  }

  /** The calls that have still a hold to write. */
  ghost function Holding(calls: map<nat, Pending>): set<nat> {
    set c | c in calls && !calls[c].ToBackorder?
  }

  lemma {:induction false} PerformFirst(s: System, hash: SkuId -> nat, first: Section, rest: seq<Section>)
    requires |s.e.shards| == SHARDS
    ensures PerformAll(s, hash, [first] + rest) == PerformAll(Perform(s, hash, first), hash, rest)
  {
    if rest == [] {
      assert [first] + rest == [first] && [first][..0] == [];
    } else {
      PerformFirst(s, hash, first, rest[..|rest| - 1]);
      assert ([first] + rest)[..|rest|] == [first] + rest[..|rest| - 1];
    }
  }

  /** The calls under way can be finished. */
  lemma {:induction false} FinishingWrites(s: System, hash: SkuId -> nat) returns (writes: seq<Section>)
    requires |s.e.shards| == SHARDS
    ensures forall i :: 0 <= i < |writes| ==> IsWrite(writes[i])
    ensures Holding(PerformAll(s, hash, writes).calls) == {}
    decreases |Holding(s.calls)|
  {
    if Holding(s.calls) == {} {
      writes := [];
    } else {
      var c :| c in Holding(s.calls);
      var first := NextWrite(s.calls[c], c);
      var next := Perform(s, hash, first);
      assert Holding(next.calls) == Holding(s.calls) - {c};
      var rest := FinishingWrites(next, hash);
      PerformFirst(s, hash, first, rest);
      writes := [first] + rest;
    }
  }

  /** Some order of the writes still due leaves less than nothing available. */
  ghost predicate CanOversell(s: System, hash: SkuId -> nat, sku: SkuId)
    requires |s.e.shards| == SHARDS
  {
    exists writes: seq<Section> ::
      (forall i :: 0 <= i < |writes| ==> IsWrite(writes[i])) && AvailableIn(PerformAll(s, hash, writes), hash, sku) < 0
  }

  /** The calls under way can oversell a SKU exactly when more of it is promised than is available. */
  lemma {:induction false} OversellsIff(s: System, hash: SkuId -> nat, sku: SkuId)
    requires |s.e.shards| == SHARDS && FreshHolds(s.e, hash)
    ensures CanOversell(s, hash, sku) <==> Promised(s.calls, sku) > AvailableIn(s, hash, sku)
  {
    if CanOversell(s, hash, sku) {
      var writes: seq<Section> :|
        (forall i :: 0 <= i < |writes| ==> IsWrite(writes[i]))
            && AvailableIn(PerformAll(s, hash, writes), hash, sku) < 0;
      WritesKeepSlack(s, hash, writes, sku);
    }
    if Slack(s, hash, sku) < 0 {
      var writes := FinishingWrites(s, hash);
      var calls := PerformAll(s, hash, writes).calls;
      forall c | c in calls ensures Owed(calls[c], sku) == 0 { assert c !in Holding(calls); }
      FinishedAvailable(s, hash, writes, sku);
      assert AvailableIn(PerformAll(s, hash, writes), hash, sku) < 0;
    }
  }

  // ----- Whole runs -----

  /** What a section takes is covered by what is available and not yet promised. */
  ghost predicate Covered(s: System, hash: SkuId -> nat, section: Section, sku: SkuId)
    requires |s.e.shards| == SHARDS
  {
    0 - Change(s, hash, section, sku) <= AvailableIn(s, hash, sku) - Promised(s.calls, sku)
  }

  /**
   * From a state that can not oversell the SKU, at no point of a run can the calls under way
   * oversell it, if and only if every read, reservation and receipt was covered when it was made.
   */
  lemma {:induction false} NeverOversellsIff(s: System, hash: SkuId -> nat, sections: seq<Section>, sku: SkuId)
    requires |s.e.shards| == SHARDS && FreshHolds(s.e, hash) && Slack(s, hash, sku) >= 0
    ensures (forall n :: 0 <= n <= |sections| ==> !CanOversell(PerformAll(s, hash, sections[..n]), hash, sku))
       <==> forall i :: 0 <= i < |sections| ==> Covered(PerformAll(s, hash, sections[..i]), hash, sections[i], sku)
  {
    forall i | 0 <= i < |sections|
      ensures Covered(PerformAll(s, hash, sections[..i]), hash, sections[i], sku)
          <==> Slack(PerformAll(s, hash, sections[..i + 1]), hash, sku) >= 0
    {
      SlackAfter(s, hash, sections, i, sku);
    }
    forall n | 0 <= n <= |sections|
      ensures CanOversell(PerformAll(s, hash, sections[..n]), hash, sku)
          <==> Slack(PerformAll(s, hash, sections[..n]), hash, sku) < 0
    {
      StaysFresh(s, hash, sections[..n]);
      OversellsIff(PerformAll(s, hash, sections[..n]), hash, sku);
    }
    if forall i :: 0 <= i < |sections| ==> Covered(PerformAll(s, hash, sections[..i]), hash, sections[i], sku) {
      forall n | 0 <= n <= |sections| ensures !CanOversell(PerformAll(s, hash, sections[..n]), hash, sku) {
        if n > 0 { assert Covered(PerformAll(s, hash, sections[..n - 1]), hash, sections[n - 1], sku); }
      }
    }
    if forall n :: 0 <= n <= |sections| ==> !CanOversell(PerformAll(s, hash, sections[..n]), hash, sku) {
      forall i | 0 <= i < |sections| ensures Covered(PerformAll(s, hash, sections[..i]), hash, sections[i], sku) {
        assert !CanOversell(PerformAll(s, hash, sections[..i + 1]), hash, sku);
      }
    }
  }

  lemma {:induction false} SlackAfter(s: System, hash: SkuId -> nat, sections: seq<Section>, i: nat, sku: SkuId)
    requires |s.e.shards| == SHARDS && FreshHolds(s.e, hash) && i < |sections|
    ensures Slack(PerformAll(s, hash, sections[..i + 1]), hash, sku)
         == Slack(PerformAll(s, hash, sections[..i]), hash, sku)
             + Change(PerformAll(s, hash, sections[..i]), hash, sections[i], sku)
  {
    StaysFresh(s, hash, sections[..i]);
    assert sections[..i + 1][..i] == sections[..i];
    SlackMoves(PerformAll(s, hash, sections[..i]), hash, sections[i], sku);
  }

  /** While no other call is under way, an order is covered: only overlapping sections oversell. */
  lemma {:induction false} AloneIsCovered(s: System, hash: SkuId -> nat, call: nat, k: SkuId, want: nat, sku: SkuId)
    requires |s.e.shards| == SHARDS && s.calls == map[] && AvailableIn(s, hash, sku) >= 0
    ensures Covered(s, hash, ReadOrder(call, k, want), sku)
  {
    NothingOwed(s.calls, sku);
    var a := AvailableIn(s, hash, sku);
    if a >= U32 { assert a % U32 < a; } else { assert a % U32 == a; }
  }

  /** A call whose sections run without a break is the whole call. */
  lemma {:induction false} UnbrokenOrder(s: System, hash: SkuId -> nat, call: nat, sku: SkuId, want: nat)
    requires |s.e.shards| == SHARDS && call !in s.calls
    ensures Perform(Perform(Perform(s, hash, ReadOrder(call, sku, want)), hash, WriteHold(call)), hash,
        WriteBackorder(call))
         == s.(e := Do(s.e, hash, OrderStep(sku, want)))
  {
    var taken := Reservable(Available(StateOf(s.e.shards, hash, sku)), want);
    var touched := s.e.(shards := Touch(s.e.shards, hash, sku));
    assert Perform(s, hash, ReadOrder(call, sku, want))
        == System(touched, s.calls[call := ToHold(sku, taken, want - taken)]);
    assert Do(s.e, hash, OrderStep(sku, want)) == Order(touched, hash, sku, taken, want);
    UnbrokenWrites(touched, hash, s.calls, call, sku, taken, want - taken);
  }

  lemma {:induction false} UnbrokenWrites(e: Engine, hash: SkuId -> nat, calls: map<nat, Pending>, call: nat,
      sku: SkuId, taken: nat, short: nat)
    requires |e.shards| == SHARDS && call !in calls
    ensures var read := System(e, calls[call := ToHold(sku, taken, short)]);
      Perform(Perform(read, hash, WriteHold(call)), hash, WriteBackorder(call))
          == System(Order(e, hash, sku, taken, taken + short), calls)
  {
    assert calls[call := ToHold(sku, taken, short)] - {call} == calls;
    assert calls[call := ToHold(sku, taken, short)][call := ToBackorder(sku, short)] - {call} == calls;
  }

  lemma {:induction false} UnbrokenFill(s: System, hash: SkuId -> nat, call: nat, sku: SkuId, backorder: HoldId)
    requires |s.e.shards| == SHARDS && call !in s.calls
    ensures Perform(Perform(s, hash, PickFill(call, sku, backorder)), hash, WriteFill(call))
        == s.(e := Do(s.e, hash, FillStep(sku, backorder)))
  {
    var st := StateOf(s.e.shards, hash, sku);
    if backorder in st.backorders && Available(st) >= st.backorders[backorder] {
      assert s.calls[call := ToFill(sku, backorder, st.backorders[backorder])] - {call} == s.calls;
    }
  }

  // ----- Orders that all read first -----

  /** Calls 0, 1, ... read, one after the other. */
  function Reads(sku: SkuId, wants: seq<nat>): seq<Section> {
    seq(|wants|, k requires 0 <= k < |wants| => ReadOrder(k, sku, wants[k]))
  }

  function TakenAt(available: int, wants: seq<nat>): nat {
    if wants == [] then 0 else TakenAt(available, wants[..|wants| - 1]) + Reservable(available, wants[|wants| - 1])
  }

  lemma {:induction false} OneMoreRead(r: System, hash: SkuId -> nat, call: nat, sku: SkuId, want: nat)
    requires |r.e.shards| == SHARDS && call !in r.calls
    ensures var next := Perform(r, hash, ReadOrder(call, sku, want));
      && next.calls.Keys == r.calls.Keys + {call}
      && AvailableIn(next, hash, sku) == AvailableIn(r, hash, sku)
      && Promised(next.calls, sku) == Promised(r.calls, sku) + Reservable(AvailableIn(r, hash, sku), want)
  {
    var taken := Reservable(AvailableIn(r, hash, sku), want);
    Touched(r.e.shards, hash, sku);
    PromisedAdd(r.calls, call, ToHold(sku, taken, want - taken), sku);
  }

  lemma {:induction false} ReadsPromise(s: System, hash: SkuId -> nat, sku: SkuId, wants: seq<nat>)
    requires |s.e.shards| == SHARDS && FreshHolds(s.e, hash) && s.calls == map[]
    ensures var r := PerformAll(s, hash, Reads(sku, wants));
      && FreshHolds(r.e, hash)
      && (forall c :: c in r.calls ==> c < |wants|)
      && AvailableIn(r, hash, sku) == AvailableIn(s, hash, sku)
      && Promised(r.calls, sku) == TakenAt(AvailableIn(s, hash, sku), wants)
  {
    StaysFresh(s, hash, Reads(sku, wants));
    if wants == [] {
      NothingOwed(s.calls, sku);
    } else {
      var n := |wants| - 1;
      ReadsPromise(s, hash, sku, wants[..n]);
      assert Reads(sku, wants)[..n] == Reads(sku, wants[..n]);
      OneMoreRead(PerformAll(s, hash, Reads(sku, wants[..n])), hash, n, sku, wants[n]);
    }
  }

  /**
   * Any number of orders that read before any of them writes: when all are written the SKU has
   * what was available less what each took from the same reading, so it is oversold exactly when
   * those add up to more than was available.
   */
  lemma {:induction false} SimultaneousOrders(s: System, hash: SkuId -> nat, sku: SkuId, wants: seq<nat>,
      writes: seq<Section>)
    requires |s.e.shards| == SHARDS && FreshHolds(s.e, hash) && s.calls == map[]
    requires forall i :: 0 <= i < |writes| ==> IsWrite(writes[i])
    requires Holding(PerformAll(PerformAll(s, hash, Reads(sku, wants)), hash, writes).calls) == {}
    ensures var end := PerformAll(PerformAll(s, hash, Reads(sku, wants)), hash, writes);
      && AvailableIn(end, hash, sku) == AvailableIn(s, hash, sku) - TakenAt(AvailableIn(s, hash, sku), wants)
      && (AvailableIn(end, hash, sku) < 0 <==> TakenAt(AvailableIn(s, hash, sku), wants) > AvailableIn(s, hash, sku))
  {
    var read := PerformAll(s, hash, Reads(sku, wants));
    ReadsPromise(s, hash, sku, wants);
    var calls := PerformAll(read, hash, writes).calls;
    forall c | c in calls ensures Owed(calls[c], sku) == 0 { assert c !in Holding(calls); }
    FinishedAvailable(read, hash, writes, sku);
  }
}
