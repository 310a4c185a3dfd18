/** From the body that was staged to the body on the bus. */
module Delivery {
  import opened Numbers
  import opened Sequences
  import opened Outbox
  import opened OutboxProtocol

  // ----- What is staged -----

  /** The bodies given to the table, in order. */
  function StagedBodies(events: seq<Event>): seq<string> {
    if events == [] then []
    else
      var n := |events| - 1;
      StagedBodies(events[..n]) + if events[n].StageRow? then [events[n].body] else []
  }

  lemma {:induction false} MarkKeepsBodies(rows: seq<OutboxRecord>, id: int)
    ensures Bodies(MarkRow(rows, id)) == Bodies(rows)
  {
    if rows != [] && rows[0].id != id {
      MarkKeepsBodies(rows[1..], id);
      forall i | 0 < i < |rows| ensures MarkRow(rows, id)[i].body == rows[i].body {
        assert Bodies(MarkRow(rows[1..], id))[i - 1] == Bodies(rows[1..])[i - 1];
      }
    }
  }

  /** In every run the table holds what was staged, row by row under the ids 1, 2, 3, and so on. */
  lemma {:induction false} RowsAreStaged(events: seq<Event>)
    ensures var rows := Run(START, events).table.rows; var bodies := StagedBodies(events);
      |rows| == |bodies| && forall i :: 0 <= i < |rows| ==> rows[i].id == i + 1 && rows[i].body == bodies[i]
  {
    if events != [] {
      var n := |events| - 1;
      var s, e := Run(START, events[..n]), events[n];
      RowsAreStaged(events[..n]);
      var d := RunKeeps(events[..n]);
      var d' := StepKeeps(s, d, e);
      if e.MarkSucceeds? {
        var relay := RelayOf(s, e.relay);
        if relay.Marking? && relay.queue != [] {
          MarkKeepsBodies(s.table.rows, relay.queue[0].id);
          forall i | 0 <= i < |s.table.rows|
            ensures MarkRow(s.table.rows, relay.queue[0].id)[i].body == s.table.rows[i].body
          {
            assert Bodies(MarkRow(s.table.rows, relay.queue[0].id))[i] == Bodies(s.table.rows)[i];
          }
        }
      }
    }
  }

  // ----- What is published -----

  /** In every run, whatever fails: the bus only carries bodies as they were staged, each under its own id. */
  lemma {:induction false} PublishedAsStaged(events: seq<Event>, i: nat)
    requires i < |Run(START, events).published|
    ensures var rec := Run(START, events).published[i];
      1 <= rec.id <= |StagedBodies(events)| && rec.body == StagedBodies(events)[rec.id - 1]
  {
    var d := RunKeeps(events);
    RowsAreStaged(events);
    assert RowOf(Run(START, events).table, Run(START, events).published[i]);
  }

  /**
   * One relay whose marks never fail and which never crashes: the bus carries the staged bodies, in
   * order and each once, as far as the relay has come.
   */
  lemma {:induction false} BusIsPrefixOfStaged(events: seq<Event>, r: nat)
    requires forall i :: 0 <= i < |events| ==> ByRelay(events[i], r)
    requires Failures(events) == 0
    ensures var p := Run(START, events).published; var bodies := StagedBodies(events);
      |p| <= |bodies| && forall i :: 0 <= i < |p| ==> p[i].body == bodies[i]
  {
    ExactlyOnce(events, r);
    var p := Run(START, events).published;
    forall i | 0 <= i < |p| ensures i < |StagedBodies(events)| && p[i].body == StagedBodies(events)[i] {
      PublishedAsStaged(events, i);
    }
    if p != [] { PublishedAsStaged(events, |p| - 1); }
  }

  // ----- What is fetched -----

  /** The rows before `n` still to be delivered. */
  function Undelivered(rows: seq<OutboxRecord>, n: nat): set<nat>
    requires n <= |rows|
  {
    set j: nat | j < n && !rows[j].delivered
  }

  lemma {:induction false} PendingSnoc(rows: seq<OutboxRecord>, row: OutboxRecord)
    ensures Pending(rows + [row]) == Pending(rows) + if row.delivered then [] else [row]
  {
    if rows == [] {
      assert ([row])[1..] == [] && rows + [row] == [row];
    } else {
      PendingSnoc(rows[1..], row);
      assert (rows + [row])[1..] == rows[1..] + [row] && (rows + [row])[0] == rows[0];
      Concat(if rows[0].delivered then [] else [rows[0]], Pending(rows[1..]), if row.delivered then [] else [row]);
    }
  }

  lemma {:induction false} OneMoreRow(rows: seq<OutboxRecord>, n: nat)
    requires n < |rows|
    ensures |Undelivered(rows, n + 1)| == |Undelivered(rows, n)| + if rows[n].delivered then 0 else 1
  {
    var before := Undelivered(rows, n);
    assert Undelivered(rows, n + 1) == if rows[n].delivered then before else before + {n};
  }

  /** The undelivered rows are at the places their ranks say. */
  ghost predicate Ranked(rows: seq<OutboxRecord>, pending: seq<OutboxRecord>, n: nat)
    requires n <= |rows|
  {
    && |pending| == |Undelivered(rows, n)|
    && forall i: nat :: i < n && !rows[i].delivered ==>
         |Undelivered(rows, i)| < |pending| && pending[|Undelivered(rows, i)|] == rows[i]
  }

  lemma {:induction false} RankedStep(rows: seq<OutboxRecord>, pending: seq<OutboxRecord>, n: nat)
    requires n < |rows| && Ranked(rows, pending, n)
    ensures Ranked(rows, pending + if rows[n].delivered then [] else [rows[n]], n + 1)
  {
    OneMoreRow(rows, n);
  }

  lemma {:induction false} PendingByRank(rows: seq<OutboxRecord>, n: nat)
    requires n <= |rows|
    ensures Ranked(rows, Pending(rows[..n]), n)
  {
    if n == 0 {
      assert Undelivered(rows, 0) == {};
    } else {
      PendingByRank(rows, n - 1);
      assert rows[..n] == rows[..n - 1] + [rows[n - 1]];
      PendingSnoc(rows[..n - 1], rows[n - 1]);
      RankedStep(rows, Pending(rows[..n - 1]), n - 1);
    }
  }

  /**
   * A fetch returns the undelivered rows, the earliest first, as many as there are up to the limit:
   * a row with fewer undelivered ones before it than the limit is at exactly that place.
   */
  lemma {:induction false} FetchesEarliest(t: Table, limit: nat)
    ensures var r := FirstPending(t, limit);
      && |r| == Min(limit, |Undelivered(t.rows, |t.rows|)|)
      && forall i: nat :: i < |t.rows| && !t.rows[i].delivered && |Undelivered(t.rows, i)| < limit ==>
           |Undelivered(t.rows, i)| < |r| && r[|Undelivered(t.rows, i)|] == t.rows[i]
  {
    PendingByRank(t.rows, |t.rows|);
    assert t.rows[..|t.rows|] == t.rows;
  }
}
