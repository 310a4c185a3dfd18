/** How often a row of the outbox is published when any number of relays work on the table. */
module Duplicates {
  import opened Outbox
  import opened OutboxProtocol

  /** The event makes relay `r` publish the row `id`. */
  predicate Publishes(s: State, e: Event, r: nat, id: int) {
    e == PublishSucceeds(r) && RelayOf(s, r).Publishing? && RelayOf(s, r).queue != [] && RelayOf(s, r).queue[0].id == id
  }

  /** The event loses relay `r`'s acknowledgement: its mark fails, or it crashes. */
  predicate Loses(e: Event, r: nat) {
    e == MarkFails(r) || e == Crash(r)
  }

  /** How often relay `r` publishes the row `id`. */
  function PublishedBy(events: seq<Event>, r: nat, id: int): nat {
    if events == [] then 0
    else
      var n := |events| - 1;
      PublishedBy(events[..n], r, id) + if Publishes(Run(START, events[..n]), events[n], r, id) then 1 else 0
  }

  function FailuresOf(events: seq<Event>, r: nat): nat {
    if events == [] then 0
    else
      var n := |events| - 1;
      FailuresOf(events[..n], r) + if Loses(events[n], r) then 1 else 0
  }

  // ----- One relay -----

  /** The row is somewhere in a queue of consecutive rows. */
  predicate Holds(queue: seq<OutboxRecord>, id: int) {
    queue != [] && queue[0].id <= id < queue[0].id + |queue|
  }

  /**
   * The relay may have published the row once more than it failed: it is about to mark it, or the
   * row is delivered and the relay is not on its way to it.
   */
  predicate MayBeOneAhead(relay: Relay, d: nat, id: int) {
    match relay
    case Idle => id <= d
    case Publishing(queue) => id <= d && !Holds(queue, id)
    case Marking(queue) => (queue != [] && queue[0].id == id) || (id <= d && !Holds(queue, id))
  }

  /** Publications and failures of the relay, before and after a step, against the lead it may have. */
  predicate LeadKept(s: State, d: nat, e: Event, t: State, d': nat, r: nat, id: int) {
    (if Publishes(s, e, r, id) then 1 else 0) + (if MayBeOneAhead(RelayOf(s, r), d, id) then 1 else 0)
    <= (if Loses(e, r) then 1 else 0) + if MayBeOneAhead(RelayOf(t, r), d', id) then 1 else 0
  }

  lemma {:induction false} FetchLead(s: State, d: nat, limit: nat, r: nat, q: nat, id: int)
    requires Inv(s, d)
    ensures LeadKept(s, d, Fetch(q, limit), Step(s, Fetch(q, limit)), d, r, id)
  {
    PendingOfPrefix(s.table.rows, d);
    var queue := FirstPending(s.table, limit);
    assert queue != [] ==> queue[0] == s.table.rows[d];
  }

  lemma {:induction false} MarkLead(s: State, d: nat, r: nat, q: nat, id: int) returns (d': nat)
    requires Inv(s, d)
    ensures Inv(Step(s, MarkSucceeds(q)), d')
    ensures LeadKept(s, d, MarkSucceeds(q), Step(s, MarkSucceeds(q)), d', r, id)
  {
    d' := MarkKeeps(s, d, q);
    var relay := RelayOf(s, q);
    if relay.Marking? && relay.queue != [] {
      assert RelayOk(s, d, relay);
      assert |relay.queue| > 1 ==> relay.queue[1..][0].id == relay.queue[0].id + 1;
    }
  }

  lemma {:induction false} StepLead(s: State, d: nat, e: Event, r: nat, id: int) returns (d': nat)
    requires Inv(s, d)
    ensures Inv(Step(s, e), d') && LeadKept(s, d, e, Step(s, e), d', r, id)
  {
    match e
    case StageRow(body) => StageKeeps(s, d, body); d' := d;
    case Fetch(q, limit) => FetchKeeps(s, d, q, limit); FetchLead(s, d, limit, r, q, id); d' := d;
    case PublishSucceeds(q) => PublishKeeps(s, d, q); d' := d;
    case MarkSucceeds(q) => d' := MarkLead(s, d, r, q, id);
    case PublishFails(q) => IdleKeeps(s, d, q); d' := d;
    case MarkFails(q) => IdleKeeps(s, d, q); d' := d;
    case Crash(q) => IdleKeeps(s, d, q); d' := d;
  }

  lemma {:induction false} RunLead(events: seq<Event>, r: nat, id: int) returns (d: nat)
    ensures Inv(Run(START, events), d)
    ensures PublishedBy(events, r, id)
         <= FailuresOf(events, r) + if MayBeOneAhead(RelayOf(Run(START, events), r), d, id) then 1 else 0
  {
    if events == [] {
      d := RunKeeps(events);
    } else {
      var n := |events| - 1;
      var d0 := RunLead(events[..n], r, id);
      d := StepLead(Run(START, events[..n]), d0, events[n], r, id);
    }
  }

  /** Whatever the other relays do: a relay publishes a row at most once, and once more for each of its own failures. */
  lemma {:induction false} OncePlusFailures(events: seq<Event>, r: nat, id: int)
    ensures PublishedBy(events, r, id) <= 1 + FailuresOf(events, r)
  {
    var d := RunLead(events, r, id);
  }

  // ----- All relays together -----

  /** How often the bus received the row. */
  function Copies(published: seq<OutboxRecord>, id: int): nat {
    if published == [] then 0
    else
      var n := |published| - 1;
      Copies(published[..n], id) + if published[n].id == id then 1 else 0
  }

  function PublishedBelow(events: seq<Event>, relays: nat, id: int): nat {
    if relays == 0 then 0 else PublishedBelow(events, relays - 1, id) + PublishedBy(events, relays - 1, id)
  }

  function FailuresBelow(events: seq<Event>, relays: nat): nat {
    if relays == 0 then 0 else FailuresBelow(events, relays - 1) + FailuresOf(events, relays - 1)
  }

  /** An event is one relay's. */
  lemma {:induction false} EventIsOneRelays(events: seq<Event>, relays: nat, id: int)
    requires events != []
    ensures var n := |events| - 1; var e := events[n];
      && PublishedBelow(events, relays, id) == PublishedBelow(events[..n], relays, id)
           + (if !e.StageRow? && e.relay < relays && Publishes(Run(START, events[..n]), e, e.relay, id) then 1 else 0)
      && FailuresBelow(events, relays) == FailuresBelow(events[..n], relays)
           + (if !e.StageRow? && e.relay < relays && Loses(e, e.relay) then 1 else 0)
    decreases relays
  {
    if relays > 0 { EventIsOneRelays(events, relays - 1, id); }
  }

  /** A step publishes one record or none. */
  lemma {:induction false} StepCopies(s: State, e: Event, id: int)
    ensures Copies(Step(s, e).published, id)
         == Copies(s.published, id) + if !e.StageRow? && Publishes(s, e, e.relay, id) then 1 else 0
  {
    var after := Step(s, e).published;
    if after != s.published {
      assert after[..|after| - 1] == s.published;
    }
  }

  lemma {:induction false} CopiesAreShared(events: seq<Event>, relays: nat, id: int)
    requires forall i :: 0 <= i < |events| ==> events[i].StageRow? || events[i].relay < relays
    ensures Copies(Run(START, events).published, id) == PublishedBelow(events, relays, id)
    ensures Failures(events) == FailuresBelow(events, relays)
  {
    if events == [] {
      NothingBelow(relays, id);
    } else {
      var n := |events| - 1;
      CopiesAreShared(events[..n], relays, id);
      EventIsOneRelays(events, relays, id);
      StepCopies(Run(START, events[..n]), events[n], id);
      assert Run(START, events) == Step(Run(START, events[..n]), events[n]);
      assert Failures(events) == Failures(events[..n]) + if events[n].MarkFails? || events[n].Crash? then 1 else 0;
    }
  }

  lemma {:induction false} NothingBelow(relays: nat, id: int)
    ensures PublishedBelow([], relays, id) == 0 && FailuresBelow([], relays) == 0
  {
    if relays > 0 { NothingBelow(relays - 1, id); }
  }

  lemma {:induction false} BelowBounded(events: seq<Event>, relays: nat, id: int)
    ensures PublishedBelow(events, relays, id) <= relays + FailuresBelow(events, relays)
    decreases relays
  {
    if relays > 0 {
      BelowBounded(events, relays - 1, id);
      OncePlusFailures(events, relays - 1, id);
    }
  }

  /** The bus receives a row at most once per relay, and once more for each failed mark or crash. */
  lemma {:induction false} CopiesBounded(events: seq<Event>, relays: nat, id: int)
    requires forall i :: 0 <= i < |events| ==> events[i].StageRow? || events[i].relay < relays
    ensures Copies(Run(START, events).published, id) <= relays + Failures(events)
  {
    CopiesAreShared(events, relays, id);
    BelowBounded(events, relays, id);
  }
}
