/** What the local search guarantees. */
module RouteSearch {
  import opened Route

  // ----- A permutation throughout -----

  function Reverse(s: seq<nat>): (r: seq<nat>)
    ensures |r| == |s|
  {
    seq(|s|, k requires 0 <= k < |s| => s[|s| - 1 - k])
  }

  lemma {:induction false} ReverseKeepsMembers(s: seq<nat>)
    ensures multiset(Reverse(s)) == multiset(s)
  {
    if s != [] {
      var front, last := s[..|s| - 1], s[|s| - 1];
      ReverseKeepsMembers(front);
      assert Reverse(s) == [last] + Reverse(front);
      assert s == front + [last];
    }
  }

  lemma {:induction false} SegmentParts(s: seq<nat>, i: nat, j: nat)
    requires i <= j < |s|
    ensures s == s[..i] + s[i..j + 1] + s[j + 1..]
    ensures ReverseSegment(s, i, j) == s[..i] + Reverse(s[i..j + 1]) + s[j + 1..]
  {
    assert s == s[..j + 1] + s[j + 1..] && s[..j + 1] == s[..i] + s[i..j + 1];
    var r := s[..i] + Reverse(s[i..j + 1]) + s[j + 1..];
    forall k | 0 <= k < |s| ensures ReverseSegment(s, i, j)[k] == r[k] {
      if i <= k <= j { assert r[k] == Reverse(s[i..j + 1])[k - i]; }
    }
  }

  lemma {:induction false} SegmentKeepsMembers(s: seq<nat>, i: nat, j: nat)
    requires i <= j < |s|
    ensures multiset(ReverseSegment(s, i, j)) == multiset(s)
  {
    SegmentParts(s, i, j);
    ReverseKeepsMembers(s[i..j + 1]);
  }

  /** A pass keeps the stops and shortens the tour by more than the tolerance. */
  lemma {:induction false} StepShortens(dist: Distance, before: seq<nat>, after: seq<nat>)
    requires BestStep(dist, before, after)
    ensures multiset(after) == multiset(before)
    ensures TourDistance(dist, after) < TourDistance(dist, before) - TOLERANCE
  {
    var i, j :| IsBest(dist, before, i, j) && after == ReverseSegment(before, i, j);
    SegmentKeepsMembers(before, i, j);
  }

  /** Over a whole search: same stops, and every pass counts. */
  lemma {:induction false} SearchShortens(dist: Distance, trace: seq<seq<nat>>)
    requires IsSearch(dist, trace)
    ensures multiset(trace[|trace| - 1]) == multiset(trace[0])
    ensures TourDistance(dist, trace[|trace| - 1]) <= TourDistance(dist, trace[0]) - (|trace| - 1) as real * TOLERANCE
    decreases |trace|
  {
    if |trace| > 1 {
      var front := trace[..|trace| - 1];
      SearchShortens(dist, front);
      StepShortens(dist, front[|front| - 1], trace[|trace| - 1]);
    }
  }

  /** The best swap is unique, so the search from a tour has one outcome. */
  lemma {:induction false} SearchDeterministic(dist: Distance, a: seq<seq<nat>>, b: seq<seq<nat>>)
    requires IsSearch(dist, a) && IsSearch(dist, b) && |a| == |b| && a[0] == b[0]
    ensures a == b
    decreases |a|
  {
    if |a| > 1 {
      var n := |a| - 1;
      SearchDeterministic(dist, a[..n], b[..n]);
      assert a[..n][n - 1] == b[..n][n - 1];
      StepDeterministic(dist, a[n - 1], a[n], b[n]);
      assert a == a[..n] + [a[n]] && b == b[..n] + [b[n]];
    }
  }

  lemma {:induction false} StepDeterministic(dist: Distance, before: seq<nat>, a: seq<nat>, b: seq<nat>)
    requires BestStep(dist, before, a) && BestStep(dist, before, b)
    ensures a == b
  {
    var i, j :| IsBest(dist, before, i, j) && a == ReverseSegment(before, i, j);
    var k, l :| IsBest(dist, before, k, l) && b == ReverseSegment(before, k, l);
    assert Beats(dist, before, i, j, k, l) && Beats(dist, before, k, l, i, j);
  }

  ghost predicate NonNegative(dist: Distance) { forall i, j :: dist(i, j) >= 0.0 }

  lemma {:induction false} PathNonNegative(dist: Distance, s: seq<nat>)
    requires NonNegative(dist)
    ensures PathLength(dist, s) >= 0.0
  {
    if |s| >= 2 { PathNonNegative(dist, s[..|s| - 1]); }
  }

  /** With distances that are not negative, the number of passes is bounded by the length to improve. */
  lemma {:induction false} PassesBounded(dist: Distance, trace: seq<seq<nat>>)
    requires NonNegative(dist) && IsSearch(dist, trace)
    ensures (|trace| - 1) as real * TOLERANCE <= TourDistance(dist, trace[0])
  {
    SearchShortens(dist, trace);
    PathNonNegative(dist, [0] + trace[|trace| - 1] + [0]);
  }

  /** A refined tour visits the same stops, and is shorter unless it is the one the search began with. */
  lemma {:induction false} RefinedNotLonger(dist: Distance, initial: seq<nat>, maxPasses: nat, tour: seq<nat>)
    requires Refined(dist, initial, maxPasses, tour)
    ensures multiset(tour) == multiset(initial)
    ensures tour == initial || TourDistance(dist, tour) < TourDistance(dist, initial)
  {
    var trace: seq<seq<nat>> :| IsSearch(dist, trace) && trace[0] == initial && trace[|trace| - 1] == tour;
    SearchShortens(dist, trace);
    if |trace| > 1 {
      assert (|trace| - 1) as real * TOLERANCE > 0.0;
    }
  }

  /** With enough passes for the length to improve, the search ends in a local optimum. */
  lemma {:induction false} EnoughPasses(dist: Distance, initial: seq<nat>, maxPasses: nat, tour: seq<nat>)
    requires NonNegative(dist) && Refined(dist, initial, maxPasses, tour)
    requires maxPasses as real * TOLERANCE > TourDistance(dist, initial)
    ensures LocallyOptimal(dist, tour)
  {
    var trace: seq<seq<nat>> :|
      && IsSearch(dist, trace) && trace[0] == initial && trace[|trace| - 1] == tour
      && |trace| <= maxPasses + 1 && (|trace| <= maxPasses ==> LocallyOptimal(dist, tour));
    PassesBounded(dist, trace);
  }

  /** The greedy seed, refined: still every stop once, and never longer than the seed. */
  method Optimize(dist: Distance, n: nat, maxPasses: nat) returns (tour: seq<nat>)
    ensures IsTour(tour, n)
    ensures exists seed ::
        IsGreedyTour(dist, n, seed) && Refined(dist, seed, maxPasses, tour)
            && TourDistance(dist, tour) <= TourDistance(dist, seed)
  {
    var seed := NearestNeighborTour(dist, n);
    tour := TwoOptImprove(dist, seed, maxPasses);
    RefinedNotLonger(dist, seed, maxPasses, tour);
  }

  // ----- Two edges for two -----

  ghost predicate Symmetric(dist: Distance) { forall i, j :: dist(i, j) == dist(j, i) }

  lemma {:induction false} PathJoin(dist: Distance, a: seq<nat>, b: seq<nat>)
    requires a != [] && b != []
    ensures PathLength(dist, a + b) == PathLength(dist, a) + dist(a[|a| - 1], b[0]) + PathLength(dist, b)
    decreases |b|
  {
    assert (a + b)[..|a + b| - 1] == a + b[..|b| - 1];
    if |b| == 1 {
      assert a + b[..0] == a;
    } else {
      PathJoin(dist, a, b[..|b| - 1]);
    }
  }

  lemma {:induction false} PathReversed(dist: Distance, s: seq<nat>)
    requires Symmetric(dist)
    ensures PathLength(dist, Reverse(s)) == PathLength(dist, s)
  {
    if |s| >= 2 {
      var front, last := s[..|s| - 1], s[|s| - 1];
      PathReversed(dist, front);
      assert Reverse(s) == [last] + Reverse(front);
      PathJoin(dist, [last], Reverse(front));
    }
  }

  /** The stop before position i, and after position j; the depot at either end. */
  function At(tour: seq<nat>, k: int): nat { if 0 <= k < |tour| then tour[k] else 0 }

  lemma {:induction false} LoopParts(a: seq<nat>, b: seq<nat>, c: seq<nat>)
    ensures [0] + (a + b + c) + [0] == ([0] + a) + b + (c + [0])
  {
  }

  lemma {:induction false} ThreeParts(dist: Distance, a: seq<nat>, b: seq<nat>, c: seq<nat>)
    requires a != [] && b != [] && c != []
    ensures PathLength(dist, a + b + c) == PathLength(dist, a) + dist(a[|a| - 1], b[0]) + PathLength(dist, b)
                                         + dist(b[|b| - 1], c[0]) + PathLength(dist, c)
  {
    PathJoin(dist, a, b);
    PathJoin(dist, a + b, c);
  }

  /** With symmetric distances a reversal trades the two edges at its ends for two others. */
  lemma {:induction false} DeltaIsEdgeExchange(dist: Distance, tour: seq<nat>, i: nat, j: nat)
    requires Symmetric(dist) && i <= j < |tour|
    ensures Delta(dist, tour, i, j) ==
      dist(At(tour, i - 1), tour[j]) + dist(tour[i], At(tour, j + 1)) - dist(At(tour, i - 1), tour[i])
          - dist(tour[j], At(tour, j + 1))
  {
    var left, mid, right := [0] + tour[..i], tour[i..j + 1], tour[j + 1..] + [0];
    SegmentParts(tour, i, j);
    LoopParts(tour[..i], mid, tour[j + 1..]);
    LoopParts(tour[..i], Reverse(mid), tour[j + 1..]);
    ThreeParts(dist, left, mid, right);
    ThreeParts(dist, left, Reverse(mid), right);
    PathReversed(dist, mid);
  }

  /** So when the search stops early, no exchange of two edges saves more than the tolerance. */
  lemma {:induction false} OptimumHasNoExchange(dist: Distance, tour: seq<nat>, i: nat, j: nat)
    requires Symmetric(dist) && LocallyOptimal(dist, tour) && i < j < |tour|
    ensures dist(At(tour, i - 1), tour[i]) + dist(tour[j], At(tour, j + 1))
         <= dist(At(tour, i - 1), tour[j]) + dist(tour[i], At(tour, j + 1)) + TOLERANCE
  {
    DeltaIsEdgeExchange(dist, tour, i, j);
    assert !Improves(dist, tour, i, j);
  }

  // ----- Greedy, best and optimal, stated on the stops -----

  lemma {:induction false} DistinctIffOnce(s: seq<nat>)
    ensures Distinct(s) <==> forall x :: multiset(s)[x] <= 1
  {
    if s != [] {
      var front, last := s[..|s| - 1], s[|s| - 1];
      assert s == front + [last];
      DistinctIffOnce(front);
      if Distinct(s) {
        forall x ensures multiset(s)[x] <= 1 { DistinctCounts(s, x); }
      } else if Distinct(front) {
        assert last in front;
        assert multiset(s)[last] >= 2;
      } else {
        var x :| multiset(front)[x] > 1;
        assert multiset(s)[x] > 1;
      }
    }
  }

  /** A tour has n - 1 different stops, numbered from 1 to n - 1. */
  ghost predicate VisitsAll(tour: seq<nat>, n: nat) {
    && |tour| == (if n == 0 then 0 else n - 1)
    && (forall i, j :: 0 <= i < j < |tour| ==> tour[i] != tour[j])
    && forall i :: 0 <= i < |tour| ==> 1 <= tour[i] < n
  }

  lemma {:induction false} TourVisitsAll(tour: seq<nat>, n: nat)
    ensures IsTour(tour, n) <==> VisitsAll(tour, n)
  {
    IndicesMembers(n);
    if IsTour(tour, n) {
      DistinctIffOnce(Indices(n));
      DistinctIffOnce(tour);
      assert |multiset(tour)| == |tour| && |multiset(Indices(n))| == |Indices(n)|;
      forall i | 0 <= i < |tour| ensures 1 <= tour[i] < n {
        assert tour[i] in multiset(tour);
        assert tour[i] in Indices(n);
      }
    }
    if VisitsAll(tour, n) {
      if n > 1 { FullTour(tour, n); } else { assert tour == [] == Indices(n); }
    }
  }

  predicate ComesFirst(dist: Distance, from: nat, a: nat, b: nat) {
    dist(from, a) < dist(from, b) || (dist(from, a) == dist(from, b) && a < b)
  }

  /** Every stop is nearer to the one before it than all visited later; of stops as near the lowest comes first. */
  ghost predicate NearestFirst(dist: Distance, tour: seq<nat>) {
    forall k, m :: 0 <= k < m < |tour| ==> ComesFirst(dist, At(tour, k - 1), tour[k], tour[m])
  }

  lemma {:induction false} GreedyIff(dist: Distance, n: nat, tour: seq<nat>)
    ensures IsGreedyTour(dist, n, tour) <==> VisitsAll(tour, n) && NearestFirst(dist, tour)
  {
    TourVisitsAll(tour, n);
    if VisitsAll(tour, n) {
      forall k | 0 <= k < |tour| ensures NearestAt(dist, n, tour, k)
          <==> forall m :: k < m < |tour| ==> ComesFirst(dist, At(tour, k - 1), tour[k], tour[m]) {
        NearestIff(dist, n, tour, k);
      }
    }
  }

  lemma {:induction false} NearestIff(dist: Distance, n: nat, tour: seq<nat>, k: nat)
    requires VisitsAll(tour, n) && k < |tour|
    ensures NearestAt(dist, n, tour, k)
       <==> forall m :: k < m < |tour| ==> ComesFirst(dist, At(tour, k - 1), tour[k], tour[m])
  {
    forall j: nat ensures 1 <= j < n && j !in tour[..k] <==> exists m :: k <= m < |tour| && tour[m] == j {
      StillOpen(tour, n, k, j);
    }
    if NearestAt(dist, n, tour, k) {
      forall m | k < m < |tour| ensures ComesFirst(dist, At(tour, k - 1), tour[k], tour[m]) {
        StillOpen(tour, n, k, tour[m]);
        assert Nearer(dist, Previous(tour, k), tour[k], tour[m]);
      }
    }
  }

  lemma {:induction false} StillOpen(tour: seq<nat>, n: nat, k: nat, j: nat)
    requires VisitsAll(tour, n) && k < |tour|
    ensures 1 <= j < n && j !in tour[..k] <==> exists m :: k <= m < |tour| && tour[m] == j
  {
    TourVisitsAll(tour, n);
    IndicesMembers(n);
    if 1 <= j < n && j !in tour[..k] {
      assert j in Indices(n);
      assert multiset(tour)[j] == multiset(Indices(n))[j] > 0;
      assert forall i :: 0 <= i < k ==> tour[..k][i] == tour[i];
      var m :| 0 <= m < |tour| && tour[m] == j;
    }
  }

  /** The same stops, those from position i to position j in reverse. */
  ghost predicate Reversed(before: seq<nat>, after: seq<nat>, i: nat, j: nat) {
    && i < j < |before| == |after|
    && forall k :: 0 <= k < |before| ==> after[k] == if i <= k <= j then before[i + j - k] else before[k]
  }

  lemma {:induction false} ReversedIs(before: seq<nat>, after: seq<nat>, i: nat, j: nat)
    ensures Reversed(before, after, i, j) <==> i < j < |before| && after == ReverseSegment(before, i, j)
  {
    if i < j < |before| {
      SegmentAt(before, i, j);
      if Reversed(before, after, i, j) { assert after == ReverseSegment(before, i, j); }
    }
  }

  lemma {:induction false} SegmentAt(s: seq<nat>, i: nat, j: nat)
    requires i <= j < |s|
    ensures forall k :: 0 <= k < |s| ==> ReverseSegment(s, i, j)[k] == if i <= k <= j then s[i + j - k] else s[k]
  {
  }

  /** A tour is locally optimal exactly when no reversal saves more than a billionth of a kilometre. */
  lemma {:induction false} OptimalIff(dist: Distance, tour: seq<nat>)
    ensures LocallyOptimal(dist, tour)
       <==> forall other: seq<nat>, i: nat, j: nat :: Reversed(tour, other, i, j) ==>
              TourDistance(dist, other) >= TourDistance(dist, tour) - 0.000000001
  {
    if LocallyOptimal(dist, tour) {
      forall other: seq<nat>, i: nat, j: nat | Reversed(tour, other, i, j)
        ensures TourDistance(dist, other) >= TourDistance(dist, tour) - 0.000000001
      {
        ReversedIs(tour, other, i, j);
        assert !Improves(dist, tour, i, j);
      }
    } else {
      var i, j :| 0 <= i < j < |tour| && Improves(dist, tour, i, j);
      assert Reversed(tour, ReverseSegment(tour, i, j), i, j);
    }
  }

  /** The reversal saves more than a billionth, no other gives a shorter tour, and none before it one as short. */
  ghost predicate ShortestFirst(dist: Distance, before: seq<nat>, after: seq<nat>, i: nat, j: nat) {
    && Reversed(before, after, i, j)
    && TourDistance(dist, after) < TourDistance(dist, before) - 0.000000001
    && forall other: seq<nat>, k: nat, l: nat :: Reversed(before, other, k, l) ==>
         && TourDistance(dist, after) <= TourDistance(dist, other)
         && (k < i || (k == i && l < j) ==> TourDistance(dist, after) < TourDistance(dist, other))
  }

  /** A pass makes the reversal that gives the shortest tour, the first of several. */
  lemma {:induction false} PassIff(dist: Distance, before: seq<nat>, after: seq<nat>)
    ensures BestStep(dist, before, after) <==> exists i: nat, j: nat :: ShortestFirst(dist, before, after, i, j)
  {
    if BestStep(dist, before, after) {
      var i, j :| IsBest(dist, before, i, j) && after == ReverseSegment(before, i, j);
      BestIsShortest(dist, before, i, j);
    }
    if exists i: nat, j: nat :: ShortestFirst(dist, before, after, i, j) {
      var i, j :| ShortestFirst(dist, before, after, i, j);
      ShortestIsBest(dist, before, after, i, j);
    }
  }

  lemma {:induction false} BestIsShortest(dist: Distance, before: seq<nat>, i: nat, j: nat)
    requires IsBest(dist, before, i, j)
    ensures ShortestFirst(dist, before, ReverseSegment(before, i, j), i, j)
  {
    var after := ReverseSegment(before, i, j);
    forall other: seq<nat>, k: nat, l: nat | Reversed(before, other, k, l)
      ensures TourDistance(dist, after) <= TourDistance(dist, other)
      ensures k < i || (k == i && l < j) ==> TourDistance(dist, after) < TourDistance(dist, other)
    {
      ReversedIs(before, other, k, l);
      assert Improves(dist, before, k, l) ==> Beats(dist, before, i, j, k, l);
    }
  }

  lemma {:induction false} ShortestIsBest(dist: Distance, before: seq<nat>, after: seq<nat>, i: nat, j: nat)
    requires ShortestFirst(dist, before, after, i, j)
    ensures IsBest(dist, before, i, j) && after == ReverseSegment(before, i, j)
  {
    ReversedIs(before, after, i, j);
    forall k, l | 0 <= k < l < |before| && Improves(dist, before, k, l) ensures Beats(dist, before, i, j, k, l) {
      ReversedIs(before, ReverseSegment(before, k, l), k, l);
    }
  }
}
