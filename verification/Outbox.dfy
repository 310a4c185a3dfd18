/** The outbox table and the relay that drains it onto the bus. */
module Outbox {
  import opened Wrappers

  /** A staged message; `body` stands for its subject and payload bytes. */
  datatype OutboxRecord = OutboxRecord(id: int, body: string, delivered: bool)

  /** The rows and the last id given out. */
  datatype Table = Table(rows: seq<OutboxRecord>, nextId: int)

  function Staged(t: Table, body: string): Table {
    Table(t.rows + [OutboxRecord(t.nextId + 1, body, false)], t.nextId + 1)
  }

  function Pending(rows: seq<OutboxRecord>): seq<OutboxRecord> {
    if rows == [] then [] else (if rows[0].delivered then [] else [rows[0]]) + Pending(rows[1..])
  }

  function Take<T>(s: seq<T>, n: nat): seq<T> {
    if |s| <= n then s else s[..n]
  }

  function FirstPending(t: Table, limit: nat): seq<OutboxRecord> {
    Take(Pending(t.rows), limit)
  }

  /** The first row with the id is marked; an unknown id changes nothing. */
  function MarkRow(rows: seq<OutboxRecord>, id: int): (r: seq<OutboxRecord>)
    ensures |r| == |rows|
  {
    if rows == [] then []
    else if rows[0].id == id then [rows[0].(delivered := true)] + rows[1..]
    else [rows[0]] + MarkRow(rows[1..], id)
  }

  function Marked(t: Table, id: int): Table {
    t.(rows := MarkRow(t.rows, id))
  }

  function Bodies(rows: seq<OutboxRecord>): (r: seq<string>)
    ensures |r| == |rows|
  {
    seq(|rows|, i requires 0 <= i < |rows| => rows[i].body)
  }

  /** What the in-memory table always satisfies: ids 1, 2, 3, ... in row order. */
  predicate Numbered(t: Table) {
    t.nextId == |t.rows| && forall i :: 0 <= i < |t.rows| ==> t.rows[i].id == i + 1
  }

  lemma {:induction false} MarkAt(rows: seq<OutboxRecord>, i: nat)
    requires i < |rows| && forall j :: 0 <= j < i ==> rows[j].id != rows[i].id
    ensures MarkRow(rows, rows[i].id) == rows[i := rows[i].(delivered := true)]
  {
    if i > 0 {
      forall j | 0 <= j < i - 1 ensures rows[1..][j].id != rows[i].id { assert rows[1..][j] == rows[j + 1]; }
      MarkAt(rows[1..], i - 1);
    }
  }

  lemma {:induction false} MarkNone(rows: seq<OutboxRecord>, id: int)
    requires forall j :: 0 <= j < |rows| ==> rows[j].id != id
    ensures MarkRow(rows, id) == rows
  {
    if rows != [] {
      forall j | 0 <= j < |rows[1..]| ensures rows[1..][j].id != id { assert rows[1..][j] == rows[j + 1]; }
      MarkNone(rows[1..], id);
    }
  }

  /** A pending row moves from the rows still to be read to the rows collected. */
  lemma {:induction false} PendingStep(rows: seq<OutboxRecord>, i: nat, r: seq<OutboxRecord>)
    requires i < |rows|
    ensures r + Pending(rows[i..]) == (if rows[i].delivered then r else r + [rows[i]]) + Pending(rows[i + 1..])
  {
    assert rows[i..][1..] == rows[i + 1..];
  }

  // ----- The classes -----

  class InMemoryOutbox {
    var rows: seq<OutboxRecord>
    var nextId: int

    ghost function Contents(): Table
      reads this
    {
      Table(rows, nextId)
    }

    constructor ()
      ensures Contents() == Table([], 0)
    {
      rows, nextId := [], 0;
    }

    method Stage(body: string) returns (id: int)
      modifies this
      ensures Contents() == Staged(old(Contents()), body) && id == nextId
      ensures rows == old(rows) + [OutboxRecord(id, body, false)] && id == old(nextId) + 1
    {
      nextId := nextId + 1;
      id := nextId;
      rows := rows + [OutboxRecord(id, body, false)];
    }

    method FetchPending(limit: nat) returns (r: seq<OutboxRecord>)
      ensures r == FirstPending(Contents(), limit)
    {
      r := [];
      var i := 0;
      while i < |rows| && |r| < limit
        invariant 0 <= i <= |rows| && |r| <= limit
        invariant r + Pending(rows[i..]) == Pending(rows)
      {
        PendingStep(rows, i, r);
        if !rows[i].delivered {
          r := r + [rows[i]];
        }
        i := i + 1;
      }
      if i == |rows| { assert rows[i..] == []; }
      assert (r + Pending(rows[i..]))[..|r|] == r;
    }

    method MarkDelivered(id: int)
      modifies this
      ensures Contents() == Marked(old(Contents()), id)
    {
      var i := 0;
      while i < |rows| && rows[i].id != id
        invariant 0 <= i <= |rows|
        invariant forall j :: 0 <= j < i ==> rows[j].id != id
      {
        i := i + 1;
      }
      if i == |rows| {
        MarkNone(rows, id);
      } else {
        MarkAt(rows, i);
        rows := rows[i := rows[i].(delivered := true)];
      }
    }
  }

  /** A bus keeps what it accepted; each publish may fail. */
  class Bus {
    var messages: seq<string>

    constructor ()
      ensures messages == []
    {
      messages := [];
    }

    method Publish(body: string) returns (ok: bool)
      modifies this
      ensures messages == if ok then old(messages) + [body] else old(messages)
    {
      ok := *;
      if ok {
        messages := messages + [body];
      }
    }
  }

  /** The table after the rows `recs` have been marked, first to last. */
  function MarkAll(t: Table, recs: seq<OutboxRecord>): Table {
    if recs == [] then t else Marked(MarkAll(t, recs[..|recs| - 1]), recs[|recs| - 1].id)
  }

  /**
   * One pass of the relay. `done` rows were published and marked in order; the pass is complete,
   * or the row after them failed to publish and is still pending.
   */
  method RunOnce(outbox: InMemoryOutbox, bus: Bus, limit: nat) returns (r: Result<nat, ()>, ghost completed: nat)
    modifies outbox, bus
    ensures var pending := FirstPending(old(outbox.Contents()), limit);
      && completed <= |pending|
      && bus.messages == old(bus.messages) + Bodies(pending[..completed])
      && (forall i :: 0 <= i < completed ==> bus.messages[|old(bus.messages)| + i] == pending[i].body)
      && outbox.Contents() == MarkAll(old(outbox.Contents()), pending[..completed])
      && (r.Ok? <==> completed == |pending|)
      && (r.Ok? ==> r.value == |pending|)
  {
    var pending := outbox.FetchPending(limit);
    var n := |pending|;
    completed := 0;
    for i := 0 to |pending|
      invariant completed == i
      invariant bus.messages == old(bus.messages) + Bodies(pending[..i])
      invariant outbox.Contents() == MarkAll(old(outbox.Contents()), pending[..i])
    {
      var ok := bus.Publish(pending[i].body);
      if !ok {
        return Err(()), completed;
      }
      outbox.MarkDelivered(pending[i].id);
      completed := i + 1;
      assert pending[..i + 1][..i] == pending[..i];
      assert Bodies(pending[..i + 1]) == Bodies(pending[..i]) + [pending[i].body];
    }
    assert pending[..|pending|] == pending;
    r := Ok(n);
  }
}
