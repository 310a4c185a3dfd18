/** Fleet routing: a greedy tour from the depot, refined by 2-opt local search. */
module Route {
  import opened Wrappers
  import opened Sets

  /** Stops are indices; stop 0 is the depot. Nothing is assumed of the distances here. */
  type Distance = (nat, nat) -> real

  const TOLERANCE: real := 0.000000001

  // ----- Tours -----

  function PathLength(dist: Distance, s: seq<nat>): real {
    if |s| < 2 then 0.0 else PathLength(dist, s[..|s| - 1]) + dist(s[|s| - 2], s[|s| - 1])
  }

  /** From the depot through the stops and back. */
  function TourDistance(dist: Distance, tour: seq<nat>): real {
    if tour == [] then 0.0 else PathLength(dist, [0] + tour + [0])
  }

  lemma {:induction false} PathSnoc(dist: Distance, s: seq<nat>, x: nat)
    requires s != []
    ensures PathLength(dist, s + [x]) == PathLength(dist, s) + dist(s[|s| - 1], x)
  {
    assert (s + [x])[..|s|] == s;
  }

  /** No stop, no way; one stop, there and back; each further stop is visited before the way home. */
  lemma {:induction false} TourLegs(dist: Distance, tour: seq<nat>, a: nat, b: nat)
    ensures TourDistance(dist, []) == 0.0
    ensures TourDistance(dist, [a]) == dist(0, a) + dist(a, 0)
    ensures TourDistance(dist, tour + [a, b]) == TourDistance(dist, tour + [a]) - dist(a, 0) + dist(a, b) + dist(b, 0)
  {
    assert [0] + [a] + [0] == [0, a] + [0];
    PathSnoc(dist, [0], a);
    PathSnoc(dist, [0, a], 0);
    var out := [0] + tour + [a];
    assert [0] + (tour + [a]) + [0] == out + [0] && [0] + (tour + [a, b]) + [0] == out + [b] + [0];
    PathSnoc(dist, out, 0);
    PathSnoc(dist, out, b);
    PathSnoc(dist, out + [b], 0);
  }

  method MeasureTour(dist: Distance, tour: seq<nat>) returns (total: real)
    ensures total == TourDistance(dist, tour)
  {
    if tour == [] {
      return 0.0;
    }
    total := dist(0, tour[0]);
    ghost var loop := [0] + tour + [0];
    assert loop[..2][..1] == loop[..1] && |loop[..1]| == 1;
    for i := 1 to |tour|
      invariant total == PathLength(dist, loop[..i + 1])
    {
      assert loop[..i + 2][..i + 1] == loop[..i + 1];
      total := total + dist(tour[i - 1], tour[i]);
    }
    assert loop[..|loop| - 1] == loop[..|tour| + 1];
    total := total + dist(tour[|tour| - 1], 0);
  }

  /** The stops other than the depot, in index order. */
  function Indices(n: nat): seq<nat> {
    if n <= 1 then [] else Indices(n - 1) + [n - 1]
  }

  /** Every stop but the depot, once. */
  ghost predicate IsTour(tour: seq<nat>, n: nat) { multiset(tour) == multiset(Indices(n)) }

  // ----- The greedy seed -----

  function Previous(tour: seq<nat>, k: nat): nat
    requires k <= |tour|
  {
    if k == 0 then 0 else tour[k - 1]
  }

  /** No stop still open is nearer than the k-th, and none as near has a lower index. */
  ghost predicate NearestAt(dist: Distance, n: nat, tour: seq<nat>, k: nat)
    requires k < |tour|
  {
    forall j :: 1 <= j < n && j !in tour[..k] ==>
      Nearer(dist, Previous(tour, k), tour[k], j)
  }

  predicate Nearer(dist: Distance, from: nat, a: nat, b: nat) {
    dist(from, a) < dist(from, b) || (dist(from, a) == dist(from, b) && a <= b)
  }

  method NearestOpen(dist: Distance, visited: array<bool>, current: nat) returns (best: Option<nat>)
    ensures best.None? <==> forall j :: 1 <= j < visited.Length ==> visited[j]
    ensures best.Some? ==> 1 <= best.value < visited.Length && !visited[best.value]
    ensures best.Some? ==> forall j :: 1 <= j < visited.Length && !visited[j] ==> Nearer(dist, current, best.value, j)
  {
    best := None;
    var j := 1;
    while j < visited.Length
      invariant 1 <= j && (j <= visited.Length || best.None?)
      invariant best.None? <==> forall k :: 1 <= k < j && k < visited.Length ==> visited[k]
      invariant best.Some? ==> 1 <= best.value < j && !visited[best.value]
      invariant best.Some? ==> forall k :: 1 <= k < j && !visited[k] ==> Nearer(dist, current, best.value, k)
    {
      if !visited[j] {
        if best.None? || dist(current, j) < dist(current, best.value) {
          best := Some(j);
        }
      }
      j := j + 1;
    }
  }

  method NearestNeighborTour(dist: Distance, n: nat) returns (tour: seq<nat>)
    ensures IsGreedyTour(dist, n, tour)
  {
    if n <= 1 {
      return [];
    }
    var visited := new bool[n](_ => false);
    visited[0] := true;
    tour := [];
    var current := 0;
    for i := 1 to n
      invariant |tour| == i - 1 && current == Previous(tour, |tour|)
      invariant visited[0] && forall j :: 1 <= j < n ==> (visited[j] <==> j in tour)
      invariant Distinct(tour) && forall k :: 0 <= k < |tour| ==> 1 <= tour[k] < n
      invariant forall k :: 0 <= k < |tour| ==> NearestAt(dist, n, tour, k)
    {
      var best := NearestOpen(dist, visited, current);
      var open := SomeOpen(tour, n);
      assert !visited[open];
      if best.Some? {
        var j := best.value;
        visited[j] := true;
        ghost var before := tour;
        tour := tour + [j];
        current := j;
        GreedySnoc(dist, n, before, j);
      }
    }
    FullTour(tour, n);
  }

  lemma {:induction false} GreedySnoc(dist: Distance, n: nat, tour: seq<nat>, j: nat)
    requires forall k :: 0 <= k < |tour| ==> NearestAt(dist, n, tour, k)
    requires forall i :: 1 <= i < n && i !in tour ==> Nearer(dist, Previous(tour, |tour|), j, i)
    ensures forall k :: 0 <= k <= |tour| ==> NearestAt(dist, n, tour + [j], k)
  {
    forall k | 0 <= k <= |tour| ensures NearestAt(dist, n, tour + [j], k) {
      assert (tour + [j])[..k] == tour[..k] && Previous(tour + [j], k) == Previous(tour, k);
      if k == |tour| {
        assert tour[..k] == tour;
      } else {
        assert NearestAt(dist, n, tour, k);
      }
    }
  }

  ghost predicate Distinct(s: seq<nat>) { forall i, j :: 0 <= i < j < |s| ==> s[i] != s[j] }

  ghost function Members(s: seq<nat>): set<nat> { set x | x in s }

  lemma {:induction false} DistinctSize(s: seq<nat>)
    requires Distinct(s)
    ensures |Members(s)| == |s|
  {
    if s != [] {
      var front, last := s[..|s| - 1], s[|s| - 1];
      DistinctSize(front);
      assert s == front + [last];
      assert Members(s) == Members(front) + {last};
      assert last !in front;
    }
  }

  lemma {:induction false} IndicesMembers(n: nat)
    ensures |Indices(n)| == (if n == 0 then 0 else n - 1) && Distinct(Indices(n))
    ensures forall j :: j in Indices(n) <==> 1 <= j < n
  {
    if n > 1 {
      IndicesMembers(n - 1);
      var front := Indices(n - 1);
      assert forall k :: 0 <= k < |front| ==> front[k] in front;
    }
  }

  /** Too few stops to be all of them. */
  lemma {:induction false} SomeOpen(tour: seq<nat>, n: nat) returns (j: nat)
    requires Distinct(tour) && |tour| + 1 < n && forall k :: 0 <= k < |tour| ==> 1 <= tour[k] < n
    ensures 1 <= j < n && j !in tour
  {
    DistinctSize(tour);
    IndicesMembers(n);
    DistinctSize(Indices(n));
    var missing := Members(Indices(n)) - Members(tour);
    if missing == {} {
      forall x | x in Members(Indices(n)) ensures x in Members(tour) { assert x !in missing; }
      SubsetSize(Members(Indices(n)), Members(tour));
      assert false;
    }
    j :| j in missing;
  }

  lemma {:induction false} DistinctCounts(s: seq<nat>, x: nat)
    requires Distinct(s)
    ensures multiset(s)[x] == if x in s then 1 else 0
  {
    if s != [] {
      var front, last := s[..|s| - 1], s[|s| - 1];
      DistinctCounts(front, x);
      assert s == front + [last];
    }
  }

  lemma {:induction false} FullTour(tour: seq<nat>, n: nat)
    requires n > 1 && Distinct(tour) && |tour| == n - 1 && forall k :: 0 <= k < |tour| ==> 1 <= tour[k] < n
    ensures IsTour(tour, n)
  {
    IndicesMembers(n);
    DistinctSize(tour);
    DistinctSize(Indices(n));
    assert forall k :: 0 <= k < |tour| ==> tour[k] in Indices(n);
    assert Members(tour) <= Members(Indices(n));
    SameSizeEqual(Members(tour), Members(Indices(n)));
    forall x: nat ensures multiset(tour)[x] == multiset(Indices(n))[x] {
      DistinctCounts(tour, x);
      DistinctCounts(Indices(n), x);
      assert x in Members(tour) <==> x in Members(Indices(n));
    }
  }

  // ----- Reversing a segment -----

  function ReverseSegment(s: seq<nat>, i: nat, j: nat): (r: seq<nat>)
    requires i <= j < |s|
    ensures |r| == |s|
  {
    seq(|s|, k requires 0 <= k < |s| => if i <= k <= j then s[i + j - k] else s[k])
  }

  method ReverseInPlace(a: array<nat>, i: nat, j: nat)
    requires i <= j < a.Length
    modifies a
    ensures a[..] == ReverseSegment(old(a[..]), i, j)
  {
    var lo, hi := i, j;
    while lo < hi
      invariant i <= lo <= hi + 1 && hi <= j && lo + hi == i + j
      invariant forall k :: 0 <= k < a.Length && !(lo <= k <= hi) && i <= k <= j ==> a[k] == old(a[i + j - k])
      invariant forall k :: 0 <= k < a.Length && (lo <= k <= hi || !(i <= k <= j)) ==> a[k] == old(a[k])
    {
      a[lo], a[hi] := a[hi], a[lo];
      lo, hi := lo + 1, hi - 1;
    }
  }

  // ----- Local search -----

  datatype Swap = Swap(i: nat, j: nat, delta: real)

  function Delta(dist: Distance, tour: seq<nat>, i: nat, j: nat): real
    requires i <= j < |tour|
  {
    TourDistance(dist, ReverseSegment(tour, i, j)) - TourDistance(dist, tour)
  }

  predicate Improves(dist: Distance, tour: seq<nat>, i: nat, j: nat) {
    i < j < |tour| && Delta(dist, tour, i, j) < 0.0 - TOLERANCE
  }

  ghost predicate LocallyOptimal(dist: Distance, tour: seq<nat>) {
    forall i, j :: 0 <= i < j < |tour| ==> !Improves(dist, tour, i, j)
  }

  predicate Before(i: nat, j: nat, k: nat, l: nat) { i < k || (i == k && j < l) }

  /** The improvement with the least delta; of several, the first. */
  ghost predicate IsBest(dist: Distance, tour: seq<nat>, i: nat, j: nat) {
    && Improves(dist, tour, i, j)
    && forall k, l :: 0 <= k < l < |tour| && Improves(dist, tour, k, l) ==> Beats(dist, tour, i, j, k, l)
  }

  ghost predicate Beats(dist: Distance, tour: seq<nat>, i: nat, j: nat, k: nat, l: nat)
    requires i < j < |tour| && k < l < |tour|
  {
    Delta(dist, tour, i, j) < Delta(dist, tour, k, l)
        || (Delta(dist, tour, i, j) == Delta(dist, tour, k, l) && !Before(k, l, i, j))
  }

  /** All improving swaps among the pairs up to (i, j), in order. */
  ghost predicate Lists(dist: Distance, tour: seq<nat>, swaps: seq<Swap>, i: nat, j: nat) {
    && (forall s ::
        s in swaps
        ==> Improves(dist, tour, s.i, s.j) && s.delta == Delta(dist, tour, s.i, s.j) && Before(s.i, s.j, i, j))
    && (forall k, l ::
        Before(k, l, i, j) && Improves(dist, tour, k, l) ==> Swap(k, l, Delta(dist, tour, k, l)) in swaps)
    && (forall a, b :: 0 <= a < b < |swaps| ==> Before(swaps[a].i, swaps[a].j, swaps[b].i, swaps[b].j))
  }

  method ScoreSwap(dist: Distance, tour: seq<nat>, i: nat, j: nat) returns (delta: real)
    requires i < j < |tour|
    ensures delta == Delta(dist, tour, i, j)
  {
    var candidate := ReverseSegment(tour, i, j);
    var there := MeasureTour(dist, candidate);
    var here := MeasureTour(dist, tour);
    delta := there - here;
  }

  lemma {:induction false} ListsStep(dist: Distance, tour: seq<nat>, swaps: seq<Swap>, i: nat, j: nat)
    requires i < j < |tour| && Lists(dist, tour, swaps, i, j)
    ensures Improves(dist, tour, i, j) ==> Lists(dist, tour, swaps + [Swap(i, j, Delta(dist, tour, i, j))], i, j + 1)
    ensures !Improves(dist, tour, i, j) ==> Lists(dist, tour, swaps, i, j + 1)
  {
    var last := Swap(i, j, Delta(dist, tour, i, j));
    var more := swaps + [last];
    assert more[|swaps|] == last;
    forall k: nat, l: nat ensures Before(k, l, i, j + 1) <==> Before(k, l, i, j) || (k == i && l == j) {}
    forall k: nat, l: nat | Before(k, l, i, j + 1)
        && Improves(dist, tour, k, l) ensures Swap(k, l, Delta(dist, tour, k, l)) in more {
      if Before(k, l, i, j) { assert Swap(k, l, Delta(dist, tour, k, l)) in swaps; }
    }
    forall a, b | 0 <= a < b < |more| ensures Before(more[a].i, more[a].j, more[b].i, more[b].j) {
      if b == |swaps| { assert swaps[a] in swaps; }
    }
  }

  method ScoreRow(dist: Distance, tour: seq<nat>, i: nat, before: seq<Swap>) returns (swaps: seq<Swap>)
    requires i < |tour| && Lists(dist, tour, before, i, 0)
    ensures Lists(dist, tour, swaps, i + 1, 0)
  {
    swaps := before;
    assert Lists(dist, tour, swaps, i, i + 1);
    for j := i + 1 to |tour|
      invariant Lists(dist, tour, swaps, i, j)
    {
      var delta := ScoreSwap(dist, tour, i, j);
      ListsStep(dist, tour, swaps, i, j);
      if delta < 0.0 - TOLERANCE {
        swaps := swaps + [Swap(i, j, delta)];
      }
    }
  }

  method FindImprovements(dist: Distance, tour: seq<nat>) returns (swaps: seq<Swap>)
    ensures Lists(dist, tour, swaps, |tour|, 0)
  {
    swaps := [];
    for i := 0 to |tour|
      invariant Lists(dist, tour, swaps, i, 0)
    {
      swaps := ScoreRow(dist, tour, i, swaps);
    }
  }

  method LeastDelta(swaps: seq<Swap>) returns (best: nat)
    requires swaps != []
    ensures best < |swaps|
    ensures forall k :: 0 <= k < |swaps| ==> swaps[best].delta <= swaps[k].delta
    ensures forall k :: 0 <= k < best ==> swaps[best].delta < swaps[k].delta
  {
    best := 0;
    for i := 1 to |swaps|
      invariant best < i
      invariant forall k :: 0 <= k < i ==> swaps[best].delta <= swaps[k].delta
      invariant forall k :: 0 <= k < best ==> swaps[best].delta < swaps[k].delta
    {
      if swaps[i].delta < swaps[best].delta { best := i; }
    }
  }

  method BestSwap(dist: Distance, tour: seq<nat>) returns (best: Option<Swap>)
    ensures best.None? ==> LocallyOptimal(dist, tour)
    ensures best.Some? ==> IsBest(dist, tour, best.value.i, best.value.j)
  {
    var swaps := FindImprovements(dist, tour);
    if swaps == [] {
      return None;
    }
    var at := LeastDelta(swaps);
    best := Some(swaps[at]);
    FirstLeastIsBest(dist, tour, swaps, at);
  }

  lemma {:induction false} FirstLeastIsBest(dist: Distance, tour: seq<nat>, swaps: seq<Swap>, at: nat)
    requires Lists(dist, tour, swaps, |tour|, 0) && at < |swaps|
    requires forall k :: 0 <= k < |swaps| ==> swaps[at].delta <= swaps[k].delta
    requires forall k :: 0 <= k < at ==> swaps[at].delta < swaps[k].delta
    ensures IsBest(dist, tour, swaps[at].i, swaps[at].j)
  {
    assert swaps[at] in swaps;
    var i, j := swaps[at].i, swaps[at].j;
    forall k, l | 0 <= k < l < |tour| && Improves(dist, tour, k, l) ensures Beats(dist, tour, i, j, k, l) {
      assert Before(k, l, |tour|, 0);
      var b :| 0 <= b < |swaps| && swaps[b] == Swap(k, l, Delta(dist, tour, k, l));
      assert b < at ==> swaps[at].delta < swaps[b].delta;
      assert at < b ==> Before(i, j, k, l);
    }
  }

  /** One pass: the best swap is applied. */
  ghost predicate BestStep(dist: Distance, before: seq<nat>, after: seq<nat>) {
    exists i, j :: IsBest(dist, before, i, j) && after == ReverseSegment(before, i, j)
  }

  /** The tours of a search, from the first to the last. */
  ghost predicate IsSearch(dist: Distance, trace: seq<seq<nat>>) {
    trace != [] && forall k :: 0 < k < |trace| ==> BestStep(dist, trace[k - 1], trace[k])
  }

  lemma {:induction false} SearchSnoc(dist: Distance, trace: seq<seq<nat>>, i: nat, j: nat)
    requires IsSearch(dist, trace) && IsBest(dist, trace[|trace| - 1], i, j)
    ensures IsSearch(dist, trace + [ReverseSegment(trace[|trace| - 1], i, j)])
  {
    var last := trace[|trace| - 1];
    assert BestStep(dist, last, ReverseSegment(last, i, j));
  }

  /**
   * `tour` ends a search from `initial` of at most `maxPasses` passes, and is locally optimal if it stopped
   * before the limit.
   */
  ghost predicate Refined(dist: Distance, initial: seq<nat>, maxPasses: nat, tour: seq<nat>) {
    exists trace: seq<seq<nat>> ::
      && IsSearch(dist, trace) && trace[0] == initial && trace[|trace| - 1] == tour
      && |trace| <= maxPasses + 1 && (|trace| <= maxPasses ==> LocallyOptimal(dist, tour))
  }

  method TwoOptImprove(dist: Distance, initial: seq<nat>, maxPasses: nat) returns (tour: seq<nat>)
    ensures Refined(dist, initial, maxPasses, tour)
  {
    var a := new nat[|initial|](k requires 0 <= k < |initial| => initial[k]);
    ghost var trace := [initial];
    assert a[..] == initial;
    for pass := 0 to maxPasses
      invariant |trace| == pass + 1 && IsSearch(dist, trace) && trace[0] == initial
      invariant a[..] == trace[pass]
    {
      if a.Length < 2 {
        return a[..];
      }
      var best := BestSwap(dist, a[..]);
      if best.None? {
        return a[..];
      }
      SearchSnoc(dist, trace, best.value.i, best.value.j);
      ReverseInPlace(a, best.value.i, best.value.j);
      trace := trace + [a[..]];
    }
    tour := a[..];
  }

  /** A tour of all stops, each the nearest then open. */
  ghost predicate IsGreedyTour(dist: Distance, n: nat, tour: seq<nat>) {
    IsTour(tour, n) && forall k :: 0 <= k < |tour| ==> NearestAt(dist, n, tour, k)
  }
}
