/** What the reservation invariant, the replay and the fills become when sections interleave. */
module SplitReplay {
  import opened MapTotals
  import opened Reservation
  import opened ReservationRuns
  import opened SplitReservation

  // ----- The invariant of the engine and of the calls under way -----

  /** A backorder that a call has picked is there, or an earlier fill took it. */
  ghost predicate PickOk(e: Engine, hash: SkuId -> nat, p: Pending)
    requires |e.shards| == SHARDS
  {
    p.ToFill? ==>
      && p.backorder < e.nextId
      && (p.backorder in StateOf(e.shards, hash, p.sku).backorders || Fills(SkuEvents(e.shards, hash, p.sku)) > 0)
  }

  ghost predicate SystemOk(s: System, hash: SkuId -> nat) {
    EngineOk(s.e, hash) && forall c :: c in s.calls ==> PickOk(s.e, hash, s.calls[c])
  }

  /** Backorders go only by fills, and fills are not forgotten. */
  ghost predicate Later(e: Engine, next: Engine, hash: SkuId -> nat)
    requires |e.shards| == SHARDS && |next.shards| == SHARDS
  {
    && e.nextId <= next.nextId
    && forall sku ::
         var st, now := StateOf(e.shards, hash, sku), StateOf(next.shards, hash, sku);
         var fills, after := Fills(SkuEvents(e.shards, hash, sku)), Fills(SkuEvents(next.shards, hash, sku));
         fills <= after && (after == 0 ==> forall b :: b in st.backorders ==> b in now.backorders)
  }

  lemma {:induction false} PicksStay(s: System, next: Engine, hash: SkuId -> nat)
    requires SystemOk(s, hash) && |next.shards| == SHARDS && Later(s.e, next, hash)
    ensures forall c :: c in s.calls ==> PickOk(next, hash, s.calls[c])
  {
    forall c | c in s.calls ensures PickOk(next, hash, s.calls[c]) {
      assert PickOk(s.e, hash, s.calls[c]);
    }
  }

  lemma {:induction false} RecordLater(e: Engine, hash: SkuId -> nat, k: SkuId, ev: ReserveEvent, st: SkuState,
      n: HoldId)
    requires |e.shards| == SHARDS && HomeOnly(e.shards, hash) && e.nextId <= n
    requires ev.BackorderFilled? || forall b :: b in StateOf(e.shards, hash, k).backorders ==> b in st.backorders
    ensures Later(e, Engine(Record(e.shards, hash, k, ev, st), n), hash)
  {
    RecordChanges(e.shards, hash, k, ev, st);
    FoldSnoc(SkuEvents(e.shards, hash, k), ev);
  }

  lemma {:induction false} TouchLater(e: Engine, hash: SkuId -> nat, k: SkuId)
    requires EngineOk(e, hash)
    ensures Later(e, e.(shards := Touch(e.shards, hash, k)), hash)
  {
    Touched(e.shards, hash, k);
    forall sku ensures SkuEvents(Touch(e.shards, hash, k), hash, sku) == SkuEvents(e.shards, hash, sku) {}
  }

  lemma {:induction false} WholeLater(e: Engine, hash: SkuId -> nat, step: Step)
    requires EngineOk(e, hash) && !step.OrderStep? && !step.FillStep?
    ensures Later(e, Do(e, hash, step), hash)
  {
    var st := StateOf(e.shards, hash, step.sku);
    match Transition(st, e.nextId, step)
    case Some((event, next, id)) => RecordLater(e, hash, step.sku, event, next, id);
    case None => TouchLater(e, hash, step.sku);
  }

  lemma {:induction false} FilledOk(e: Engine, hash: SkuId -> nat, k: SkuId, b: HoldId, qty: nat)
    requires EngineOk(e, hash)
    requires b in StateOf(e.shards, hash, k).backorders || Fills(SkuEvents(e.shards, hash, k)) > 0
    ensures EngineOk(Filled(e, hash, k, b, qty), hash)
  {
    var st, evs := StateOf(e.shards, hash, k), SkuEvents(e.shards, hash, k);
    var next := st.(backorders := st.backorders - {b}, holds := st.holds[e.nextId := qty]);
    assert SkuOk(st, evs, e.nextId);
    BackorderTurned(st, evs, e.nextId, b, qty);
    var fill := BackorderFilled(e.nextId, qty);
    assert Filled(e, hash, k, b, qty) == Engine(Record(e.shards, hash, k, fill, next), e.nextId + 1);
    RecordKeeps(e, hash, k, fill, next, e.nextId + 1);
  }

  lemma {:induction false} FilledLater(e: Engine, hash: SkuId -> nat, p: Pending)
    requires |e.shards| == SHARDS && HomeOnly(e.shards, hash) && p.ToFill?
    ensures Later(e, Filled(e, hash, p.sku, p.backorder, p.qty), hash)
  {
    var st := StateOf(e.shards, hash, p.sku);
    var next := st.(backorders := st.backorders - {p.backorder}, holds := st.holds[e.nextId := p.qty]);
    RecordLater(e, hash, p.sku, BackorderFilled(e.nextId, p.qty), next, e.nextId + 1);
  }

  lemma {:induction false} HoldLater(e: Engine, hash: SkuId -> nat, k: SkuId, qty: nat)
    requires EngineOk(e, hash)
    ensures EngineOk(PlaceHold(e, hash, k, qty), hash) && Later(e, PlaceHold(e, hash, k, qty), hash)
  {
    var st := StateOf(e.shards, hash, k);
    PlaceHoldKeeps(e, hash, k, qty);
    RecordLater(e, hash, k, Hold(e.nextId, qty), st.(holds := st.holds[e.nextId := qty]), e.nextId + 1);
  }

  lemma {:induction false} BackorderLater(e: Engine, hash: SkuId -> nat, k: SkuId, qty: nat)
    requires EngineOk(e, hash)
    ensures EngineOk(PlaceBackorder(e, hash, k, qty), hash) && Later(e, PlaceBackorder(e, hash, k, qty), hash)
  {
    var st := StateOf(e.shards, hash, k);
    PlaceBackorderKeeps(e, hash, k, qty);
    RecordLater(e, hash, k, BackorderPlaced(e.nextId, qty), st.(backorders := st.backorders[e.nextId := qty]),
        e.nextId + 1);
  }

  lemma {:induction false} Unchanged(e: Engine, hash: SkuId -> nat)
    requires |e.shards| == SHARDS
    ensures Later(e, e, hash)
  {
  }

  /** Every section keeps the engine's invariant, and moves it only forward. */
  lemma {:induction false} SectionLater(s: System, hash: SkuId -> nat, section: Section)
    requires SystemOk(s, hash)
    ensures EngineOk(Perform(s, hash, section).e, hash) && Later(s.e, Perform(s, hash, section).e, hash)
  {
    Unchanged(s.e, hash);
    match section
    case Whole(step) =>
      if !step.OrderStep? && !step.FillStep? {
        StepKeeps(s.e, hash, step);
        WholeLater(s.e, hash, step);
      }
    case ReadOrder(call, k, want) =>
      TouchKeeps(s.e, hash, k);
      TouchLater(s.e, hash, k);
    case PickFill(_, _, _) =>
    case WriteHold(call) =>
      if call in s.calls && s.calls[call].ToHold? { HoldLater(s.e, hash, s.calls[call].sku, s.calls[call].taken); }
    case WriteBackorder(call) =>
      if call in s.calls && s.calls[call].ToBackorder? {
        BackorderLater(s.e, hash, s.calls[call].sku, s.calls[call].short);
      }
    case WriteFill(call) =>
      if call in s.calls && s.calls[call].ToFill? {
        var p := s.calls[call];
        FilledOk(s.e, hash, p.sku, p.backorder, p.qty);
        FilledLater(s.e, hash, p);
      }
  }

  lemma {:induction false} NewPickOk(s: System, hash: SkuId -> nat, section: Section)
    requires EngineOk(s.e, hash) && section.PickFill? && section.call !in s.calls
    requires section.call in Perform(s, hash, section).calls
    ensures PickOk(Perform(s, hash, section).e, hash, Perform(s, hash, section).calls[section.call])
  {
    assert SkuOk(StateOf(s.e.shards, hash, section.sku), SkuEvents(s.e.shards, hash, section.sku), s.e.nextId);
  }

  lemma {:induction false} CallOk(s: System, hash: SkuId -> nat, section: Section, c: nat)
    requires EngineOk(s.e, hash) && c in Perform(s, hash, section).calls
    requires forall d :: d in s.calls ==> PickOk(Perform(s, hash, section).e, hash, s.calls[d])
    ensures PickOk(Perform(s, hash, section).e, hash, Perform(s, hash, section).calls[c])
  {
    var calls := Perform(s, hash, section).calls;
    if calls[c].ToFill? {
      if c in s.calls {
        assert calls[c] == s.calls[c];
      } else {
        NewPickOk(s, hash, section);
      }
    }
  }

  lemma {:induction false} SectionKeeps(s: System, hash: SkuId -> nat, section: Section)
    requires SystemOk(s, hash)
    ensures SystemOk(Perform(s, hash, section), hash)
  {
    var next := Perform(s, hash, section);
    SectionLater(s, hash, section);
    PicksStay(s, next.e, hash);
    forall c | c in next.calls ensures PickOk(next.e, hash, next.calls[c]) {
      CallOk(s, hash, section, c);
    }
  }

  ghost function After(hash: SkuId -> nat, sections: seq<Section>): (r: System)
    ensures |r.e.shards| == SHARDS
  {
    PerformAll(System(NewEngine(), map[]), hash, sections)
  }

  /** The invariant holds after every interleaving of lock sections. */
  lemma {:induction false} SectionsKeep(hash: SkuId -> nat, sections: seq<Section>)
    ensures SystemOk(After(hash, sections), hash)
  {
    if sections == [] {
      NewEngineOk(hash);
    } else {
      SectionsKeep(hash, sections[..|sections| - 1]);
      SectionKeeps(After(hash, sections[..|sections| - 1]), hash, sections[|sections| - 1]);
    }
  }

  // ----- Holds and replay -----

  /** However the sections interleave, holds, captures and stock are accounted for, oversold or not. */
  lemma {:induction false} SectionsAccounted(hash: SkuId -> nat, sections: seq<Section>, sku: SkuId)
    ensures var e := After(hash, sections).e; Accounted(StateOf(e.shards, hash, sku), SkuEvents(e.shards, hash, sku))
  {
    SectionsKeep(hash, sections);
    var e := After(hash, sections).e;
    OkIsAccounted(StateOf(e.shards, hash, sku), SkuEvents(e.shards, hash, sku), e.nextId);
  }

  /**
   * However the sections interleave, a SKU's rebuilt state is the live one exactly when none of its
   * backorders was filled.
   */
  lemma {:induction false} SectionsReplayIff(hash: SkuId -> nat, sections: seq<Section>, sku: SkuId)
    ensures var e := After(hash, sections).e;
      var live, rebuilt := StateOf(e.shards, hash, sku), StateIn(ReplayStates(AllEvents(e.shards)), sku);
      && (rebuilt == live <==> Fills(SkuEvents(e.shards, hash, sku)) == 0)
      && rebuilt.onHand == live.onHand
  {
    SectionsKeep(hash, sections);
    RebuiltIff(After(hash, sections).e, hash, sku);
  }

  // ----- Fills of one backorder -----

  /** The calls that have picked the backorder and not yet filled it. */
  ghost function Pickers(calls: map<nat, Pending>, sku: SkuId, b: HoldId): set<nat> {
    set c | c in calls && calls[c].ToFill? && calls[c].sku == sku && calls[c].backorder == b
  }

  /** The section fills the backorder. */
  ghost predicate FillsIt(s: System, section: Section, sku: SkuId, b: HoldId) {
    section.WriteFill? && section.call in Pickers(s.calls, sku, b)
  }

  /** The backorder was placed and is no longer there. */
  ghost predicate Gone(s: System, hash: SkuId -> nat, sku: SkuId, b: HoldId)
    requires |s.e.shards| == SHARDS
  {
    b < s.e.nextId && b !in StateOf(s.e.shards, hash, sku).backorders
  }

  lemma {:induction false} WholeStaysGone(e: Engine, hash: SkuId -> nat, step: Step, sku: SkuId, b: HoldId)
    requires |e.shards| == SHARDS && !step.OrderStep? && b < e.nextId && b !in StateOf(e.shards, hash, sku).backorders
    ensures b < Do(e, hash, step).nextId && b !in StateOf(Do(e, hash, step).shards, hash, sku).backorders
  {
    match Transition(StateOf(e.shards, hash, step.sku), e.nextId, step)
    case Some((event, next, id)) => Recorded(e.shards, hash, step.sku, event, next);
    case None => Touched(e.shards, hash, step.sku);
  }

  /** A backorder that is gone is neither placed nor picked again. */
  lemma {:induction false} StaysGone(s: System, hash: SkuId -> nat, section: Section, sku: SkuId, b: HoldId)
    requires |s.e.shards| == SHARDS && Gone(s, hash, sku, b)
    ensures Gone(Perform(s, hash, section), hash, sku, b)
    ensures Pickers(Perform(s, hash, section).calls, sku, b) <= Pickers(s.calls, sku, b)
  {
    match section
    case Whole(step) => if !step.OrderStep? { WholeStaysGone(s.e, hash, step, sku, b); }
    case ReadOrder(_, k, _) => Touched(s.e.shards, hash, k);
    case PickFill(_, _, _) =>
    case WriteHold(call) =>
      if call in s.calls && s.calls[call].ToHold? {
        HoldStaysGone(s.e, hash, s.calls[call].sku, s.calls[call].taken, sku);
      }
    case WriteBackorder(call) =>
      if call in s.calls && s.calls[call].ToBackorder? {
        BackorderStaysGone(s.e, hash, s.calls[call].sku, s.calls[call].short, sku, b);
      }
    case WriteFill(call) =>
      if call in s.calls && s.calls[call].ToFill? { FillStaysGone(s.e, hash, s.calls[call], sku, b); }
  }

  lemma {:induction false} HoldStaysGone(e: Engine, hash: SkuId -> nat, k: SkuId, qty: nat, sku: SkuId)
    requires |e.shards| == SHARDS
    ensures StateOf(PlaceHold(e, hash, k, qty).shards, hash, sku).backorders == StateOf(e.shards, hash, sku).backorders
  {
    var st := StateOf(e.shards, hash, k);
    Recorded(e.shards, hash, k, Hold(e.nextId, qty), st.(holds := st.holds[e.nextId := qty]));
  }

  lemma {:induction false} BackorderStaysGone(e: Engine, hash: SkuId -> nat, k: SkuId, qty: nat, sku: SkuId, b: HoldId)
    requires |e.shards| == SHARDS && b < e.nextId && b !in StateOf(e.shards, hash, sku).backorders
    ensures b !in StateOf(PlaceBackorder(e, hash, k, qty).shards, hash, sku).backorders
  {
    var st := StateOf(e.shards, hash, k);
    Recorded(e.shards, hash, k, BackorderPlaced(e.nextId, qty), st.(backorders := st.backorders[e.nextId := qty]));
  }

  lemma {:induction false} FillStaysGone(e: Engine, hash: SkuId -> nat, p: Pending, sku: SkuId, b: HoldId)
    requires |e.shards| == SHARDS && p.ToFill?
    ensures var now := StateOf(Filled(e, hash, p.sku, p.backorder, p.qty).shards, hash, sku).backorders;
      now == if p.sku == sku then StateOf(e.shards, hash, sku).backorders - {p.backorder}
          else StateOf(e.shards, hash, sku).backorders
  {
    var st := StateOf(e.shards, hash, p.sku);
    Recorded(e.shards, hash, p.sku, BackorderFilled(e.nextId, p.qty),
             st.(backorders := st.backorders - {p.backorder}, holds := st.holds[e.nextId := p.qty]));
  }

  /** The sections fill the backorder at some point. */
  ghost predicate FillsSometime(s: System, hash: SkuId -> nat, sections: seq<Section>, sku: SkuId, b: HoldId)
    requires |s.e.shards| == SHARDS
  {
    exists i :: 0 <= i < |sections| && FillsIt(PerformAll(s, hash, sections[..i]), sections[i], sku, b)
  }

  lemma {:induction false} GoneThroughout(s: System, hash: SkuId -> nat, sections: seq<Section>, sku: SkuId, b: HoldId)
    requires |s.e.shards| == SHARDS && Gone(s, hash, sku, b)
    ensures Gone(PerformAll(s, hash, sections), hash, sku, b)
    ensures Pickers(PerformAll(s, hash, sections).calls, sku, b) <= Pickers(s.calls, sku, b)
  {
    if sections != [] {
      var n := |sections| - 1;
      GoneThroughout(s, hash, sections[..n], sku, b);
      StaysGone(PerformAll(s, hash, sections[..n]), hash, sections[n], sku, b);
    }
  }

  /** A backorder that is gone is filled again by some course of sections exactly when a call still has it picked. */
  lemma {:induction false} FilledAgainIff(s: System, hash: SkuId -> nat, sku: SkuId, b: HoldId)
    requires |s.e.shards| == SHARDS && Gone(s, hash, sku, b)
    ensures (exists sections: seq<Section> :: FillsSometime(s, hash, sections, sku, b))
        <==> Pickers(s.calls, sku, b) != {}
  {
    if exists sections: seq<Section> :: FillsSometime(s, hash, sections, sku, b) {
      var sections: seq<Section> :| FillsSometime(s, hash, sections, sku, b);
      var i :| 0 <= i < |sections| && FillsIt(PerformAll(s, hash, sections[..i]), sections[i], sku, b);
      GoneThroughout(s, hash, sections[..i], sku, b);
    }
    if Pickers(s.calls, sku, b) != {} {
      var c :| c in Pickers(s.calls, sku, b);
      var sections := [WriteFill(c)];
      assert sections[..0] == [] && FillsIt(PerformAll(s, hash, sections[..0]), sections[0], sku, b);
      assert FillsSometime(s, hash, sections, sku, b);
    }
  }

  /**
   * Once a call has filled a backorder, it is filled again by some course of sections exactly when
   * another call had picked it as well.
   */
  lemma {:induction false} FilledTwiceIff(s: System, hash: SkuId -> nat, call: nat, sku: SkuId, b: HoldId)
    requires SystemOk(s, hash) && call in Pickers(s.calls, sku, b)
    ensures var next := Perform(s, hash, WriteFill(call));
      (exists sections: seq<Section> :: FillsSometime(next, hash, sections, sku, b))
      <==> exists other :: other in Pickers(s.calls, sku, b) && other != call
  {
    var next := Perform(s, hash, WriteFill(call));
    assert PickOk(s.e, hash, s.calls[call]);
    FillStaysGone(s.e, hash, s.calls[call], sku, b);
    assert Pickers(next.calls, sku, b) == Pickers(s.calls, sku, b) - {call};
    FilledAgainIff(next, hash, sku, b);
    if Pickers(next.calls, sku, b) != {} {
      var other :| other in Pickers(next.calls, sku, b);
      assert other in Pickers(s.calls, sku, b) && other != call;
    }
    if exists other :: other in Pickers(s.calls, sku, b) && other != call {
      var other :| other in Pickers(s.calls, sku, b) && other != call;
      assert other in Pickers(next.calls, sku, b);
    }
  }

  /** Every fill holds the picked quantity once more, whether or not the backorder is still there. */
  lemma {:induction false} FillTakes(s: System, hash: SkuId -> nat, call: nat, sku: SkuId, b: HoldId)
    requires SystemOk(s, hash) && call in Pickers(s.calls, sku, b)
    ensures AvailableIn(Perform(s, hash, WriteFill(call)), hash, sku) == AvailableIn(s, hash, sku) - s.calls[call].qty
  {
    var p := s.calls[call];
    var st := StateOf(s.e.shards, hash, sku);
    assert SkuOk(st, SkuEvents(s.e.shards, hash, sku), s.e.nextId);
    Recorded(s.e.shards, hash, sku, BackorderFilled(s.e.nextId, p.qty),
             st.(backorders := st.backorders - {b}, holds := st.holds[s.e.nextId := p.qty]));
    TotalInsert(st.holds, s.e.nextId, p.qty);
  }
}
