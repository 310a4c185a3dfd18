/** The append-only event log with a version per aggregate. */
module EventStore {
  import opened Wrappers

  datatype StoredEvent<A, E> = StoredEvent(aggregate: A, sequence: nat, payload: E)

  datatype Store<A(==), E> = Store(log: seq<StoredEvent<A, E>>, versions: map<A, nat>)

  datatype StoreError = Conflict(expected: nat, current: nat)

  function Empty<A(==), E>(): Store<A, E> {
    Store([], map[])
  }

  function Version<A, E>(s: Store<A, E>, a: A): nat {
    if a in s.versions then s.versions[a] else 0
  }

  function AppendVersioned<A, E>(s: Store<A, E>, a: A, e: E, expected: nat): Result<Store<A, E>, StoreError> {
    var current := Version(s, a);
    if expected != current + 1 then Err(Conflict(expected, current))
    else Ok(Store(s.log + [StoredEvent(a, current + 1, e)], s.versions[a := current + 1]))
  }

  /** Appending without a check is appending at the next version, which cannot conflict. */
  function Appended<A, E>(s: Store<A, E>, a: A, e: E): Store<A, E> {
    AppendVersioned(s, a, e, Version(s, a) + 1).value
  }

  function Stream<A(==), E>(log: seq<StoredEvent<A, E>>, a: A): seq<StoredEvent<A, E>> {
    if log == [] then []
    else
      var n := |log| - 1;
      Stream(log[..n], a) + if log[n].aggregate == a then [log[n]] else []
  }

  function Payloads<A, E>(log: seq<StoredEvent<A, E>>): (r: seq<E>)
    ensures |r| == |log|
  {
    seq(|log|, i requires 0 <= i < |log| => log[i].payload)
  }

  /** Every aggregate's events are numbered 1, 2, ..., up to its version. */
  ghost predicate Contiguous<A(!new), E>(s: Store<A, E>) {
    forall a :: |Stream(s.log, a)| == Version(s, a)
             && forall k :: 0 <= k < Version(s, a) ==> Stream(s.log, a)[k].sequence == k + 1
  }

  lemma {:induction false} AppendKeepsContiguous<A(!new), E>(s: Store<A, E>, a: A, e: E)
    requires Contiguous(s)
    ensures Contiguous(Appended(s, a, e))
  {
    var t := Appended(s, a, e);
    assert t.log[..|t.log| - 1] == s.log;
    forall b ensures |Stream(t.log, b)| == Version(t, b)
                  && forall k :: 0 <= k < Version(t, b) ==> Stream(t.log, b)[k].sequence == k + 1
    {
      assert |Stream(s.log, b)| == Version(s, b);
    }
  }

  /**
   * An append goes through exactly when it is numbered one past the aggregate's events; otherwise it
   * conflicts, with the number asked for and the number there is.
   */
  lemma {:induction false} ConflictIff<A(!new), E>(s: Store<A, E>, a: A, e: E, expected: nat)
    requires Contiguous(s)
    ensures var n := |Stream(s.log, a)|; var r := AppendVersioned(s, a, e, expected);
      && (expected == n + 1 ==> r.Ok? && r.value.log == s.log + [StoredEvent(a, expected, e)] && Contiguous(r.value))
      && (expected != n + 1 ==> r == Err(Conflict(expected, n)))
  {
    assert |Stream(s.log, a)| == Version(s, a);
    AppendKeepsContiguous(s, a, e);
  }

  /** The in-memory log the source ships. */
  class InMemoryEventStore<A(==, !new), E> {
    var log: seq<StoredEvent<A, E>>
    var versions: map<A, nat>

    function Contents(): Store<A, E>
      reads this
    {
      Store(log, versions)
    }

    ghost predicate Valid()
      reads this
    {
      Contiguous(Contents())
    }

    constructor ()
      ensures Valid() && Contents() == Empty()
    {
      log, versions := [], map[];
    }

    method AppendVersioned(a: A, e: E, expected: nat) returns (r: Result<StoredEvent<A, E>, StoreError>)
      requires Valid()
      modifies this
      ensures Valid()
      ensures expected == Version(old(Contents()), a) + 1 ==>
        Contents() == Appended(old(Contents()), a, e) && r == Ok(StoredEvent(a, expected, e))
      ensures expected != Version(old(Contents()), a) + 1 ==>
        Contents() == old(Contents()) && r == Err(Conflict(expected, Version(old(Contents()), a)))
    {
      var current := if a in versions then versions[a] else 0;
      if expected != current + 1 {
        return Err(Conflict(expected, current));
      }
      AppendKeepsContiguous(Contents(), a, e);
      var stored := StoredEvent(a, current + 1, e);
      versions := versions[a := current + 1];
      log := log + [stored];
      r := Ok(stored);
    }

    method Append(a: A, e: E) returns (stored: StoredEvent<A, E>)
      requires Valid()
      modifies this
      ensures Valid()
      ensures Contents() == Appended(old(Contents()), a, e)
      ensures stored == StoredEvent(a, Version(old(Contents()), a) + 1, e)
    {
      var current := if a in versions then versions[a] else 0;
      var r := AppendVersioned(a, e, current + 1);
      stored := r.value;
    }
  }
}
