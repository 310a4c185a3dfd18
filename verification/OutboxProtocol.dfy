/**
 * The outbox as a protocol: any number of relays work on one table, and any of them may fail to
 * publish, fail to mark, or crash between two steps.
 */
module OutboxProtocol {
  import opened Outbox

  /** Where a relay is in its pass. The head of `queue` is the row it is working on. */
  datatype Relay =
    | Idle
    | Publishing(queue: seq<OutboxRecord>)
    | Marking(queue: seq<OutboxRecord>)

  /** `published` lists what the bus accepted, in order, with the row it came from. */
  datatype State = State(table: Table, published: seq<OutboxRecord>, relays: map<nat, Relay>)

  datatype Event =
    | StageRow(body: string)
    | Fetch(relay: nat, limit: nat)
    | PublishSucceeds(relay: nat)
    | PublishFails(relay: nat)
    | MarkSucceeds(relay: nat)
    | MarkFails(relay: nat)
    | Crash(relay: nat)

  const START := State(Table([], 0), [], map[])

  function RelayOf(s: State, r: nat): Relay {
    if r in s.relays then s.relays[r] else Idle
  }

  function Continue(queue: seq<OutboxRecord>): Relay {
    if queue == [] then Idle else Publishing(queue)
  }

  /** One step. An event that does not fit the relay's position changes nothing. */
  function Step(s: State, e: Event): State {
    match e
    case StageRow(body) => s.(table := Staged(s.table, body))
    case Fetch(r, limit) =>
      if RelayOf(s, r) != Idle then s
      else s.(relays := s.relays[r := Continue(FirstPending(s.table, limit))])
    case PublishSucceeds(r) =>
      (match RelayOf(s, r)
       case Publishing(queue) =>
         if queue == [] then s
         else s.(published := s.published + [queue[0]], relays := s.relays[r := Marking(queue)])
       case _ => s)
    case PublishFails(r) =>
      if RelayOf(s, r).Publishing? then s.(relays := s.relays[r := Idle]) else s
    case MarkSucceeds(r) =>
      (match RelayOf(s, r)
       case Marking(queue) =>
         if queue == [] then s
         else s.(table := Marked(s.table, queue[0].id), relays := s.relays[r := Continue(queue[1..])])
       case _ => s)
    case MarkFails(r) =>
      if RelayOf(s, r).Marking? then s.(relays := s.relays[r := Idle]) else s
    case Crash(r) => s.(relays := s.relays[r := Idle])
  }

  function Run(s: State, events: seq<Event>): State {
    if events == [] then s else Step(Run(s, events[..|events| - 1]), events[|events| - 1])
  }

  // ----- What holds in every reachable state -----

  /** Exactly the first `d` rows are delivered. */
  ghost predicate DeliveredPrefix(t: Table, d: nat) {
    d <= |t.rows| && forall i :: 0 <= i < |t.rows| ==> (t.rows[i].delivered <==> i < d)
  }

  /** The ids in `published` in the order of their first appearance. */
  function FirstIds(published: seq<OutboxRecord>): seq<int> {
    if published == [] then []
    else
      var front := FirstIds(published[..|published| - 1]);
      var id := published[|published| - 1].id;
      if id in front then front else front + [id]
  }

  function OneTo(n: nat): (s: seq<int>)
    ensures |s| == n
  {
    seq(n, i => i + 1)
  }

  lemma InOneTo(n: nat, id: int)
    ensures id in OneTo(n) <==> 1 <= id <= n
  {
    if 1 <= id <= n { assert OneTo(n)[id - 1] == id; }
  }

  /** A record a relay holds is a row of the table, up to its delivered flag. */
  ghost predicate RowOf(t: Table, rec: OutboxRecord) {
    1 <= rec.id <= |t.rows| && t.rows[rec.id - 1].body == rec.body
  }

  /** A relay's queue: consecutive rows, with everything before them delivered. */
  ghost predicate QueueOk(t: Table, d: nat, queue: seq<OutboxRecord>) {
    && |queue| > 0
    && queue[0].id <= d + 1
    && (forall j :: 0 <= j < |queue| ==> RowOf(t, queue[j]) && queue[j].id == queue[0].id + j)
  }

  ghost predicate RelayOk(s: State, d: nat, relay: Relay) {
    match relay
    case Idle => true
    case Publishing(queue) => QueueOk(s.table, d, queue)
    case Marking(queue) => QueueOk(s.table, d, queue) && queue[0].id in FirstIds(s.published)
  }

  ghost predicate Inv(s: State, d: nat) {
    && Numbered(s.table)
    && DeliveredPrefix(s.table, d)
    && (FirstIds(s.published) == OneTo(d) || FirstIds(s.published) == OneTo(d + 1))
    && (forall i :: 0 <= i < |s.published| ==> RowOf(s.table, s.published[i]))
    && (forall r :: r in s.relays ==> RelayOk(s, d, s.relays[r]))
  }

  lemma {:induction false} PendingOfPrefix(rows: seq<OutboxRecord>, d: nat)
    requires d <= |rows| && forall i :: 0 <= i < |rows| ==> (rows[i].delivered <==> i < d)
    ensures Pending(rows) == rows[d..]
  {
    if rows != [] {
      forall i | 0 <= i < |rows| - 1 ensures rows[1..][i].delivered <==> i < if d == 0 then 0 else d - 1 {
        assert rows[1..][i] == rows[i + 1];
      }
      PendingOfPrefix(rows[1..], if d == 0 then 0 else d - 1);
    }
  }

  lemma MarkNumbered(t: Table, id: int)
    requires Numbered(t) && 1 <= id <= |t.rows|
    ensures Marked(t, id) == t.(rows := t.rows[id - 1 := t.rows[id - 1].(delivered := true)])
    ensures Numbered(Marked(t, id))
  {
    MarkAt(t.rows, id - 1);
  }

  lemma {:induction false} StageKeeps(s: State, d: nat, body: string)
    requires Inv(s, d)
    ensures Inv(Step(s, StageRow(body)), d)
  {
    var t := Step(s, StageRow(body));
    forall r | r in t.relays ensures RelayOk(t, d, t.relays[r]) {
      assert RelayOk(s, d, s.relays[r]);
    }
  }

  lemma {:induction false} FetchedQueue(t: Table, d: nat, limit: nat)
    requires Numbered(t) && DeliveredPrefix(t, d)
    ensures FirstPending(t, limit) != [] ==> QueueOk(t, d, FirstPending(t, limit))
  {
    PendingOfPrefix(t.rows, d);
    var queue := FirstPending(t, limit);
    forall j | 0 <= j < |queue| ensures RowOf(t, queue[j]) && queue[j].id == d + 1 + j {
      assert queue[j] == t.rows[d + j];
    }
  }

  lemma {:induction false} FetchKeeps(s: State, d: nat, r: nat, limit: nat)
    requires Inv(s, d)
    ensures Inv(Step(s, Fetch(r, limit)), d)
  {
    FetchedQueue(s.table, d, limit);
    var t := Step(s, Fetch(r, limit));
    forall q | q in t.relays ensures RelayOk(t, d, t.relays[q]) {
      if q in s.relays { assert RelayOk(s, d, s.relays[q]); }
    }
  }

  lemma {:induction false} PublishKeeps(s: State, d: nat, r: nat)
    requires Inv(s, d)
    ensures Inv(Step(s, PublishSucceeds(r)), d)
  {
    var relay := RelayOf(s, r);
    if relay.Publishing? && relay.queue != [] {
      assert RelayOk(s, d, relay);
      var t := Step(s, PublishSucceeds(r));
      var id := relay.queue[0].id;
      assert t.published[..|t.published| - 1] == s.published;
      var ids := FirstIds(s.published);
      InOneTo(d, id);
      InOneTo(d + 1, id);
      if id in ids {
      } else {
        assert id == d + 1 && ids == OneTo(d);
        assert FirstIds(t.published) == OneTo(d + 1);
      }
      assert id in FirstIds(t.published);
      forall q | q in t.relays ensures RelayOk(t, d, t.relays[q]) {
        if q != r { assert RelayOk(s, d, s.relays[q]); }
      }
    }
  }

  /** Marking a row spoils no relay's queue. */
  lemma {:induction false} MarkedQueues(s: State, d: nat, d': nat, id: int, t: State)
    requires Numbered(s.table) && 1 <= id <= |s.table.rows| && d <= d'
    requires t.table == Marked(s.table, id) && t.published == s.published
    ensures forall relay :: RelayOk(s, d, relay) ==> RelayOk(t, d', relay)
  {
    MarkNumbered(s.table, id);
    forall relay | RelayOk(s, d, relay) ensures RelayOk(t, d', relay) {
      if !relay.Idle? {
        forall j | 0 <= j < |relay.queue| ensures RowOf(t.table, relay.queue[j]) {
          assert RowOf(s.table, relay.queue[j]);
        }
      }
    }
  }

  /** Marking a delivered row, or the next one. */
  lemma {:induction false} MarkedPrefix(t: Table, d: nat, id: int)
    requires Numbered(t) && DeliveredPrefix(t, d) && 1 <= id <= |t.rows| && id <= d + 1
    ensures Numbered(Marked(t, id)) && DeliveredPrefix(Marked(t, id), if id == d + 1 then d + 1 else d)
    ensures |Marked(t, id).rows| == |t.rows|
        && forall i :: 0 <= i < |t.rows| ==> Marked(t, id).rows[i].body == t.rows[i].body
  {
    MarkNumbered(t, id);
  }

  lemma {:induction false} MarkKeeps(s: State, d: nat, r: nat) returns (d': nat)
    requires Inv(s, d)
    ensures d <= d' <= d + 1 && Inv(Step(s, MarkSucceeds(r)), d')
    ensures d' == d + 1 <==> RelayOf(s, r).Marking? && RelayOf(s, r).queue != [] && RelayOf(s, r).queue[0].id == d + 1
  {
    var relay := RelayOf(s, r);
    d' := d;
    if relay.Marking? && relay.queue != [] {
      assert RelayOk(s, d, relay);
      var queue := relay.queue;
      var t := Step(s, MarkSucceeds(r));
      if queue[0].id == d + 1 {
        d' := d + 1;
        InOneTo(d, d + 1);
      }
      MarkedPrefix(s.table, d, queue[0].id);
      forall i | 0 <= i < |s.published| ensures RowOf(t.table, t.published[i]) {
        assert RowOf(s.table, s.published[i]);
      }
      MarkedQueues(s, d, d', queue[0].id, t);
      forall q | q in t.relays ensures RelayOk(t, d', t.relays[q]) {
        if q != r { assert RelayOk(s, d, s.relays[q]); }
      }
    }
  }

  lemma {:induction false} IdleKeeps(s: State, d: nat, r: nat)
    requires Inv(s, d)
    ensures Inv(s.(relays := s.relays[r := Idle]), d)
  {
    var t := s.(relays := s.relays[r := Idle]);
    forall q | q in t.relays ensures RelayOk(t, d, t.relays[q]) {
      if q != r { assert RelayOk(s, d, s.relays[q]); }
    }
  }

  lemma {:induction false} StepKeeps(s: State, d: nat, e: Event) returns (d': nat)
    requires Inv(s, d)
    ensures d <= d' && Inv(Step(s, e), d')
  {
    d' := d;
    match e
    case StageRow(body) => StageKeeps(s, d, body);
    case Fetch(r, limit) => FetchKeeps(s, d, r, limit);
    case PublishSucceeds(r) => PublishKeeps(s, d, r);
    case PublishFails(r) => IdleKeeps(s, d, r);
    case MarkSucceeds(r) => d' := MarkKeeps(s, d, r);
    case MarkFails(r) => IdleKeeps(s, d, r);
    case Crash(r) => IdleKeeps(s, d, r);
  }

  lemma {:induction false} RunKeeps(events: seq<Event>) returns (d: nat)
    ensures Inv(Run(START, events), d)
  {
    if events == [] {
      d := 0;
      assert FirstIds([]) == OneTo(0);
    } else {
      var d0 := RunKeeps(events[..|events| - 1]);
      d := StepKeeps(Run(START, events[..|events| - 1]), d0, events[|events| - 1]);
    }
  }

  // ----- The main results -----

  ghost predicate Published(s: State, id: int) {
    exists i :: 0 <= i < |s.published| && s.published[i].id == id
  }

  lemma {:induction false} FirstIdsAreIds(published: seq<OutboxRecord>, id: int)
    ensures id in FirstIds(published) <==> exists i :: 0 <= i < |published| && published[i].id == id
  {
    if published != [] {
      var n := |published| - 1;
      FirstIdsAreIds(published[..n], id);
      if exists i :: 0 <= i < |published| && published[i].id == id {
        var i :| 0 <= i < |published| && published[i].id == id;
        if i < n { assert published[..n][i].id == id; }
      }
    }
  }

  /** Delivery up to row `d`, seen from the bus. */
  ghost predicate InOrder(s: State, d: nat) {
    && DeliveredPrefix(s.table, d)
    && (forall id :: 1 <= id <= d ==> Published(s, id))
    && (forall id :: Published(s, id) ==> 1 <= id <= d + 1)
    && (forall i :: 0 <= i < |s.published| ==> RowOf(s.table, s.published[i]))
    && (FirstIds(s.published) == OneTo(d) || FirstIds(s.published) == OneTo(d + 1))
  }

  /**
   * In every run, whatever interleaves or fails: the delivered rows are a prefix of the staged
   * rows, every delivered row was published, the only row that may be published yet undelivered
   * is the next one, what is published is the body of the row, and first publications are in id
   * order without a gap.
   */
  lemma {:induction false} DeliveryInOrder(events: seq<Event>)
    ensures exists d: nat :: InOrder(Run(START, events), d)
  {
    var d := RunKeeps(events);
    var s := Run(START, events);
    var ids := FirstIds(s.published);
    forall id | 1 <= id <= d ensures Published(s, id) {
      assert ids[id - 1] == id;
      FirstIdsAreIds(s.published, id);
    }
    forall id | Published(s, id) ensures 1 <= id <= d + 1 {
      FirstIdsAreIds(s.published, id);
    }
    assert InOrder(s, d);
  }

  lemma {:induction false} StepKeepsRows(s: State, d: nat, e: Event)
    requires Inv(s, d)
    ensures var early, late := s.table.rows, Step(s, e).table.rows;
      && |early| <= |late|
      && forall i :: 0 <= i < |early| ==> late[i].id == early[i].id && late[i].body == early[i].body
                                          && (early[i].delivered ==> late[i].delivered)
  {
    if e.MarkSucceeds? && RelayOf(s, e.relay).Marking? && RelayOf(s, e.relay).queue != [] {
      assert RelayOk(s, d, RelayOf(s, e.relay));
      MarkNumbered(s.table, RelayOf(s, e.relay).queue[0].id);
    }
  }

  /** Rows are never reordered, rewritten or taken back, and a delivered row stays delivered. */
  lemma {:induction false} RowsOnlyGrow(events: seq<Event>, k: nat)
    requires k <= |events|
    ensures var early := Run(START, events[..k]).table.rows; var late := Run(START, events).table.rows;
      && |early| <= |late|
      && forall i :: 0 <= i < |early| ==> late[i].id == early[i].id && late[i].body == early[i].body
                                          && (early[i].delivered ==> late[i].delivered)
    decreases |events|
  {
    if k < |events| {
      var n := |events| - 1;
      RowsOnlyGrow(events[..n], k);
      assert events[..n][..k] == events[..k];
      var d := RunKeeps(events[..n]);
      StepKeepsRows(Run(START, events[..n]), d, events[n]);
    } else {
      assert events[..k] == events;
    }
  }

  // ----- Duplicates -----

  predicate ByRelay(e: Event, r: nat) {
    e.StageRow? || e.relay == r
  }

  /** Losses of the acknowledgement: a failed mark, or a crash. */
  function Failures(events: seq<Event>): nat {
    if events == [] then 0
    else
      Failures(events[..|events| - 1])
          + match events[|events| - 1] { case MarkFails(_) => 1 case Crash(_) => 1 case _ => 0 }
  }

  ghost predicate SoleRelay(s: State, r: nat, d: nat) {
    && (forall q :: q in s.relays ==> q == r)
    && (!RelayOf(s, r).Idle? ==> RelayOf(s, r).queue != [] && RelayOf(s, r).queue[0].id == d + 1)
  }

  ghost predicate Balanced(s: State, r: nat, d: nat, failures: nat) {
    |s.published| <= d + failures + if RelayOf(s, r).Marking? then 1 else 0
  }

  lemma {:induction false} SoleMarkStep(s: State, r: nat, d: nat, failures: nat, d': nat)
    requires Inv(s, d) && SoleRelay(s, r, d) && Balanced(s, r, d, failures)
    requires Inv(Step(s, MarkSucceeds(r)), d')
    ensures SoleRelay(Step(s, MarkSucceeds(r)), r, d') && Balanced(Step(s, MarkSucceeds(r)), r, d', failures)
  {
    var d1 := MarkKeeps(s, d, r);
    SamePrefix(Step(s, MarkSucceeds(r)).table, d', d1);
    var relay := RelayOf(s, r);
    if relay.Marking? {
      assert RelayOk(s, d, relay);
      assert |relay.queue| > 1 ==> relay.queue[1].id == relay.queue[0].id + 1;
    }
  }

  lemma {:induction false} SoleFetchStep(s: State, r: nat, d: nat, limit: nat)
    requires Inv(s, d) && SoleRelay(s, r, d)
    ensures SoleRelay(Step(s, Fetch(r, limit)), r, d)
  {
    PendingOfPrefix(s.table.rows, d);
    var queue := FirstPending(s.table, limit);
    assert queue != [] ==> queue[0] == s.table.rows[d];
  }

  lemma {:induction false} SoleStep(s: State, r: nat, d: nat, failures: nat, e: Event) returns (d': nat)
    requires Inv(s, d) && SoleRelay(s, r, d) && Balanced(s, r, d, failures) && ByRelay(e, r)
    ensures Inv(Step(s, e), d') && SoleRelay(Step(s, e), r, d')
    ensures Balanced(Step(s, e), r, d', failures + if e.MarkFails? || e.Crash? then 1 else 0)
  {
    match e
    case StageRow(body) => StageKeeps(s, d, body); d' := d;
    case Fetch(_, limit) => FetchKeeps(s, d, r, limit); SoleFetchStep(s, r, d, limit); d' := d;
    case PublishSucceeds(_) => PublishKeeps(s, d, r); d' := d;
    case MarkSucceeds(_) => d' := MarkKeeps(s, d, r); SoleMarkStep(s, r, d, failures, d');
    case _ => IdleKeeps(s, d, r); d' := d;
  }

  lemma {:induction false} SoleRelayRuns(events: seq<Event>, r: nat) returns (d: nat)
    requires forall i :: 0 <= i < |events| ==> ByRelay(events[i], r)
    ensures var s := Run(START, events); Inv(s, d) && SoleRelay(s, r, d) && Balanced(s, r, d, Failures(events))
  {
    if events == [] {
      d := 0;
      assert FirstIds([]) == OneTo(0);
    } else {
      var n := |events| - 1;
      var d0 := SoleRelayRuns(events[..n], r);
      d := SoleStep(Run(START, events[..n]), r, d0, Failures(events[..n]), events[n]);
    }
  }

  lemma SamePrefix(t: Table, d: nat, e: nat)
    requires DeliveredPrefix(t, d) && DeliveredPrefix(t, e)
    ensures d == e
  {
    assert d < |t.rows| ==> !t.rows[d].delivered;
    assert e < |t.rows| ==> !t.rows[e].delivered;
  }

  ghost predicate PaidFor(s: State, d: nat, failures: nat) {
    DeliveredPrefix(s.table, d) && |s.published| <= d + failures + 1
  }

  /**
   * With a single relay, duplicates are paid for by failures: at most one publication beyond the
   * delivered rows for every failed mark or crash, and one more in flight.
   */
  lemma {:induction false} DuplicatesBounded(events: seq<Event>, r: nat)
    requires forall i :: 0 <= i < |events| ==> ByRelay(events[i], r)
    ensures exists d: nat :: PaidFor(Run(START, events), d, Failures(events))
  {
    var d := SoleRelayRuns(events, r);
    assert PaidFor(Run(START, events), d, Failures(events));
  }

  lemma {:induction false} FirstIdsLength(published: seq<OutboxRecord>)
    ensures |FirstIds(published)| <= |published|
    ensures |FirstIds(published)| == |published|
        ==> forall i :: 0 <= i < |published| ==> FirstIds(published)[i] == published[i].id
  {
    if published != [] {
      FirstIdsLength(published[..|published| - 1]);
    }
  }

  /** A single relay whose marks never fail and which never crashes delivers exactly once, in order. */
  lemma {:induction false} ExactlyOnce(events: seq<Event>, r: nat)
    requires forall i :: 0 <= i < |events| ==> ByRelay(events[i], r)
    requires Failures(events) == 0
    ensures var p := Run(START, events).published; forall i :: 0 <= i < |p| ==> p[i].id == i + 1
  {
    var d := SoleRelayRuns(events, r);
    var s := Run(START, events);
    FirstIdsLength(s.published);
    if RelayOf(s, r).Marking? {
      assert RelayOk(s, d, RelayOf(s, r));
    }
  }

  /** A crash between publish and mark makes the next pass publish the row again. */
  lemma {:induction false} CrashRepublishes()
    ensures var s :=
        Run(START, [StageRow("a"), Fetch(0, 1), PublishSucceeds(0), Crash(0), Fetch(0, 1), PublishSucceeds(0)]);
      |s.published| == 2 && s.published[0].id == s.published[1].id
  {
    var row := OutboxRecord(1, "a", false);
    var t := Table([row], 1);
    assert [row][1..] == [] && Pending([row]) == [row];
    assert FirstPending(t, 1) == [row];
    var one := [StageRow("a")];
    var two := one + [Fetch(0, 1)];
    var three := two + [PublishSucceeds(0)];
    var four := three + [Crash(0)];
    var five := four + [Fetch(0, 1)];
    assert [] + one == one && one[..0] == [];
    RunSnoc(one, Fetch(0, 1));
    assert Run(START, one) == State(t, [], map[]);
    assert Run(START, two) == State(t, [], map[0 := Publishing([row])]);
    RunSnoc(two, PublishSucceeds(0));
    assert Run(START, three) == State(t, [row], map[0 := Marking([row])]);
    RunSnoc(three, Crash(0));
    assert Run(START, four) == State(t, [row], map[0 := Idle]);
    RunSnoc(four, Fetch(0, 1));
    assert Run(START, five) == State(t, [row], map[0 := Publishing([row])]);
    RunSnoc(five, PublishSucceeds(0));
    assert five + [PublishSucceeds(0)]
        == [StageRow("a"), Fetch(0, 1), PublishSucceeds(0), Crash(0), Fetch(0, 1), PublishSucceeds(0)];
  }

  lemma {:induction false} RunSnoc(events: seq<Event>, e: Event)
    ensures Run(START, events + [e]) == Step(Run(START, events), e)
  {
    assert (events + [e])[..|events|] == events;
  }

  // ----- A whole pass -----

  /** What `RunOnce` leaves behind: the rows it completed are delivered, the rest are still pending. */
  lemma {:induction false} PassAdvances(t: Table, d: nat, limit: nat, completed: nat)
    requires Numbered(t) && DeliveredPrefix(t, d) && completed <= |FirstPending(t, limit)|
    ensures Numbered(MarkAll(t, FirstPending(t, limit)[..completed]))
    ensures |MarkAll(t, FirstPending(t, limit)[..completed]).rows| == |t.rows|
    ensures DeliveredPrefix(MarkAll(t, FirstPending(t, limit)[..completed]), d + completed)
  {
    PendingOfPrefix(t.rows, d);
    var done := FirstPending(t, limit)[..completed];
    forall j | 0 <= j < |done| ensures done[j].id == d + 1 + j { assert done[j] == t.rows[d + j]; }
    MarkInOrder(t, d, done);
  }

  lemma {:induction false} MarkInOrder(t: Table, d: nat, recs: seq<OutboxRecord>)
    requires Numbered(t) && DeliveredPrefix(t, d) && d + |recs| <= |t.rows|
    requires forall j :: 0 <= j < |recs| ==> recs[j].id == d + 1 + j
    ensures Numbered(MarkAll(t, recs)) && |MarkAll(t, recs).rows| == |t.rows|
    ensures DeliveredPrefix(MarkAll(t, recs), d + |recs|)
  {
    if recs != [] {
      var n := |recs| - 1;
      MarkInOrder(t, d, recs[..n]);
      MarkAdvances(MarkAll(t, recs[..n]), d + n);
    }
  }

  lemma {:induction false} MarkAdvances(t: Table, d: nat)
    requires Numbered(t) && DeliveredPrefix(t, d) && d < |t.rows|
    ensures Numbered(Marked(t, d + 1)) && DeliveredPrefix(Marked(t, d + 1), d + 1)
    ensures |Marked(t, d + 1).rows| == |t.rows|
  {
    MarkNumbered(t, d + 1);
  }

  /** A pass without a failure and with a large enough limit leaves nothing to deliver. */
  lemma {:induction false} FullPassDrains(t: Table, d: nat, limit: nat)
    requires Numbered(t) && DeliveredPrefix(t, d) && limit >= |t.rows|
    ensures FirstPending(MarkAll(t, FirstPending(t, limit)), limit) == []
  {
    PendingOfPrefix(t.rows, d);
    var pending := FirstPending(t, limit);
    assert pending[..|pending|] == pending;
    PassAdvances(t, d, limit, |pending|);
    var done := MarkAll(t, pending);
    PendingOfPrefix(done.rows, d + |pending|);
  }

  // ----- A pass of the relay is a run of the protocol -----

  /** `n` rows published and marked. */
  function Rounds(r: nat, n: nat): seq<Event> {
    if n == 0 then [] else Rounds(r, n - 1) + [PublishSucceeds(r), MarkSucceeds(r)]
  }

  /** The steps of a pass that found `pending` rows and completed some of them. */
  function PassEvents(r: nat, limit: nat, pending: nat, completed: nat): seq<Event> {
    [Fetch(r, limit)] + Rounds(r, completed) + if completed < pending then [PublishFails(r)] else []
  }

  lemma {:induction false} RunAppend(s: State, a: seq<Event>, b: seq<Event>)
    ensures Run(s, a + b) == Run(Run(s, a), b)
  {
    if b == [] {
      assert a + b == a;
    } else {
      RunAppend(s, a, b[..|b| - 1]);
      assert (a + b)[..|a + b| - 1] == a + b[..|b| - 1];
    }
  }

  /** Where a pass is after `n` rows. */
  ghost predicate InPass(before: State, s: State, r: nat, pending: seq<OutboxRecord>, n: nat) {
    && n <= |pending|
    && s.table == MarkAll(before.table, pending[..n]) && s.published == before.published + pending[..n]
    && RelayOf(s, r) == Continue(pending[n..])
  }

  lemma {:induction false} OneRound(before: State, s: State, r: nat, pending: seq<OutboxRecord>, n: nat)
    requires InPass(before, s, r, pending, n) && n < |pending|
    ensures InPass(before, Run(s, [PublishSucceeds(r), MarkSucceeds(r)]), r, pending, n + 1)
  {
    var events := [PublishSucceeds(r), MarkSucceeds(r)];
    assert events[..1] == [PublishSucceeds(r)] && events[..1][..0] == [];
    assert Run(s, [PublishSucceeds(r)]) == Step(s, PublishSucceeds(r));
    assert Run(s, events) == Step(Step(s, PublishSucceeds(r)), MarkSucceeds(r));
    assert pending[..n + 1] == pending[..n] + [pending[n]] && pending[..n + 1][..n] == pending[..n];
    assert pending[n..][0] == pending[n] && pending[n..][1..] == pending[n + 1..];
  }

  lemma {:induction false} Fetched(s: State, r: nat, limit: nat)
    requires RelayOf(s, r) == Idle
    ensures InPass(s, Step(s, Fetch(r, limit)), r, FirstPending(s.table, limit), 0)
  {
    var pending := FirstPending(s.table, limit);
    assert pending[..0] == [] && pending[0..] == pending && s.published + [] == s.published;
  }

  lemma {:induction false} AfterRounds(s: State, r: nat, limit: nat, n: nat)
    requires RelayOf(s, r) == Idle && n <= |FirstPending(s.table, limit)|
    ensures InPass(s, Run(s, [Fetch(r, limit)] + Rounds(r, n)), r, FirstPending(s.table, limit), n)
  {
    if n == 0 {
      Fetched(s, r, limit);
      assert [Fetch(r, limit)] + [] == [Fetch(r, limit)] && [Fetch(r, limit)][..0] == [];
    } else {
      AfterRounds(s, r, limit, n - 1);
      var front := [Fetch(r, limit)] + Rounds(r, n - 1);
      assert [Fetch(r, limit)] + Rounds(r, n) == front + [PublishSucceeds(r), MarkSucceeds(r)];
      RunAppend(s, front, [PublishSucceeds(r), MarkSucceeds(r)]);
      OneRound(s, Run(s, front), r, FirstPending(s.table, limit), n - 1);
    }
  }

  /**
   * What `RunOnce` does to the table and the bus is what the protocol does when an idle relay
   * fetches, publishes and marks the completed rows, and fails to publish the next if there is one.
   */
  lemma {:induction false} PassIsRun(s: State, r: nat, limit: nat, completed: nat)
    requires RelayOf(s, r) == Idle && completed <= |FirstPending(s.table, limit)|
    ensures var pending := FirstPending(s.table, limit);
      var after := Run(s, PassEvents(r, limit, |pending|, completed));
      && after.table == MarkAll(s.table, pending[..completed])
      && Bodies(after.published) == Bodies(s.published) + Bodies(pending[..completed])
      && RelayOf(after, r) == Idle
  {
    var pending := FirstPending(s.table, limit);
    var front := [Fetch(r, limit)] + Rounds(r, completed);
    AfterRounds(s, r, limit, completed);
    if completed < |pending| {
      RunAppend(s, front, [PublishFails(r)]);
      assert [PublishFails(r)][..0] == [];
      assert pending[completed..] != [];
    } else {
      assert front + [] == front;
      assert pending[completed..] == [];
    }
    assert Bodies(s.published + pending[..completed]) == Bodies(s.published) + Bodies(pending[..completed]);
  }
}
