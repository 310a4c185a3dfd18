/** What the split of `Money.Allocation` guarantees. */
module LargestRemainder {
  import opened Sums
  import opened Money

  /** `unit` times the ratio total: a share `amount * ratio` is this many per minor unit. */
  function Modulus(unit: nat, ratios: seq<nat>): (m: int)
    requires unit > 0 && Sum(ratios) > 0
    ensures m > 0
  {
    MulPositive(unit, Sum(ratios));
    unit * Sum(ratios)
  }

  function Remainder(amount: int, unit: nat, ratios: seq<nat>, i: nat): int
    requires unit > 0 && Sum(ratios) > 0 && i < |ratios|
  {
    Remainders(amount, Modulus(unit, ratios), ratios)[i].1
  }

  /** Index `i` gets one of the leftover units. */
  ghost predicate Served(amount: int, unit: nat, ratios: seq<nat>, i: nat)
    requires unit > 0 && Sum(ratios) > 0
  {
    exists k :: 0 <= k < ExtraUnits(amount, unit, ratios) && Ranking(amount, unit, ratios)[k].0 == i
  }

  // ----- Arithmetic, kept apart from the sequences -----

  lemma {:induction false} MulStep(m: int, a: int, b: int)
    requires m > 0
    ensures a < b ==> m * a + m <= m * b
    ensures a <= b ==> m * a <= m * b
  {
    if a < b { assert m * (a + 1) <= m * b; }
  }

  lemma {:induction false} DivMod(x: int, m: int)
    requires m > 0
    ensures x == m * (x / m) + x % m && 0 <= x % m < m
  {}

  lemma {:induction false} DivBetween(x: int, m: int, q: int)
    requires m > 0 && m * q <= x < m * q + m
    ensures x / m == q
  {
    DivMod(x, m);
    MulStep(m, x / m, q);
    MulStep(m, q, x / m);
  }

  lemma {:induction false} DivMonotone(x: int, y: int, m: int)
    requires m > 0 && x <= y
    ensures x / m <= y / m
  {
    DivMod(x, m);
    DivMod(y, m);
    MulStep(m, y / m, x / m);
  }

  lemma {:induction false} DivLess(x: int, m: int, q: int)
    requires m > 0
    ensures x / m < q <==> x < Times(m, q)
  {
    DivMod(x, m);
    MulStep(m, x / m, q);
    MulStep(m, q, x / m);
  }

  lemma {:induction false} SignOfFactor(t: int, l: int)
    requires t > 0
    ensures l > 0 <==> t * l > 0
    ensures l < 0 <==> t * l < 0
  {
    if l > 0 { assert t * l > 0; } else if l < 0 { assert t * l < 0; }
  }

  /** Every share minus its whole units, summed. */
  lemma {:induction false} CollectRemainder(a: int, u: int, t: int, w: int)
    ensures a * t + -(u * t) * w == t * (a - Times(u, w))
  {
    Regroup(u, w, t);
    assert -(u * t) * w == -((u * t) * w);
    assert t * (a - u * w) == a * t - (u * w) * t;
  }

  lemma {:induction false} CancelRatio(t: int, u: int, l: int, k: nat)
    requires t > 0 && t * l < k * (u * t)
    ensures l < Times(u, k)
  {
    Regroup(u, k, t);
    if l >= u * k {
      MulStep(t, u * k, l);
      assert false;
    }
  }

  lemma {:induction false} QuotaOf(x: int, m: int, u: int)
    requires m > 0 && x >= 0
    requires u == x / m || (u == x / m + 1 && x % m != 0)
    ensures -m < m * u - x < m && u >= 0
  {
    DivMod(x, m);
    var f := x / m;
    assert m * (f + 1) == m * f + m;
    MulStep(m, f, -1);
  }

  // ----- The ranking lists every index once, with its own remainder -----

  lemma {:induction false} RankingEntry(amount: int, unit: nat, ratios: seq<nat>, k: nat)
    requires unit > 0 && Sum(ratios) > 0 && k < |ratios|
    ensures var e := Ranking(amount, unit, ratios)[k];
      e.0 < |ratios| && e.1 == Remainder(amount, unit, ratios, e.0)
  {
    var r := Ranking(amount, unit, ratios);
    assert r[k] in multiset(r);
    assert r[k] in Remainders(amount, Modulus(unit, ratios), ratios);
  }

  lemma {:induction false} RankOf(amount: int, unit: nat, ratios: seq<nat>, i: nat) returns (k: nat)
    requires unit > 0 && Sum(ratios) > 0 && i < |ratios|
    ensures k < |ratios| && Ranking(amount, unit, ratios)[k] == (i, Remainder(amount, unit, ratios, i))
  {
    var r := Ranking(amount, unit, ratios);
    var s := Remainders(amount, Modulus(unit, ratios), ratios);
    assert s[i] in multiset(s);
    assert s[i] in multiset(r);
    k :| 0 <= k < |r| && r[k] == s[i];
  }

  lemma {:induction false} RankingDistinct(amount: int, unit: nat, ratios: seq<nat>, j: nat, k: nat)
    requires unit > 0 && Sum(ratios) > 0 && j < k < |ratios|
    ensures Ranking(amount, unit, ratios)[j].0 != Ranking(amount, unit, ratios)[k].0
  {
    RankingEntry(amount, unit, ratios, j);
    RankingEntry(amount, unit, ratios, k);
    assert Before(Ranking(amount, unit, ratios)[j], Ranking(amount, unit, ratios)[k]);
  }

  lemma {:induction false} GiveOneAt(parts: seq<int>, order: seq<(nat, int)>, i: nat)
    requires Indexed(order, |parts|) && i < |parts|
    requires forall j, k :: 0 <= j < k < |order| ==> order[j].0 != order[k].0
    ensures GiveOne(parts, order)[i] == parts[i] + if exists k :: 0 <= k < |order| && order[k].0 == i then 1 else 0
  {
    if order != [] {
      var n := |order| - 1;
      var front := order[..n];
      GiveOneAt(parts, front, i);
      if order[n].0 == i {
        assert !exists k :: 0 <= k < n && front[k].0 == i;
      } else if exists k :: 0 <= k < |order| && order[k].0 == i {
        var k :| 0 <= k < |order| && order[k].0 == i;
        assert front[k].0 == i;
      }
    }
  }

  lemma {:induction false} GiveOneSum(parts: seq<int>, order: seq<(nat, int)>)
    requires Indexed(order, |parts|)
    ensures Sum(GiveOne(parts, order)) == Sum(parts) + |order|
  {
    if order != [] {
      var n := |order| - 1;
      var p := GiveOne(parts, order[..n]);
      GiveOneSum(parts, order[..n]);
      SumUpdate(p, order[n].0, p[order[n].0] + 1);
    }
  }

  /** A part is its rounded share, plus one exactly when its index is served. */
  lemma {:induction false} UnitsAt(amount: int, unit: nat, ratios: seq<nat>, i: nat)
    requires unit > 0 && Sum(ratios) > 0 && i < |ratios|
    ensures Units(amount, unit, ratios)[i]
         == Truncate(amount * ratios[i], Modulus(unit, ratios)) + if Served(amount, unit, ratios, i) then 1 else 0
  {
    var e := ExtraUnits(amount, unit, ratios);
    var r := Ranking(amount, unit, ratios);
    forall j, k | 0 <= j < k < e ensures r[..e][j].0 != r[..e][k].0 {
      RankingDistinct(amount, unit, ratios, j, k);
    }
    GiveOneAt(Wholes(amount, Modulus(unit, ratios), ratios), r[..e], i);
    if Served(amount, unit, ratios, i) {
      var k :| 0 <= k < e && r[k].0 == i;
      assert r[..e][k].0 == i;
    }
  }

  // ----- Sums of remainders -----

  lemma {:induction false} SortedSum(s: seq<(nat, int)>)
    ensures Sum(Seconds(SortDescending(s))) == Sum(Seconds(s))
  {
    if s != [] {
      SortedSum(s[1..]);
      InsertedSum(s[0], SortDescending(s[1..]));
      InsertLength(s[0], SortDescending(s[1..]));
      assert Seconds(s)[1..] == Seconds(s[1..]);
    }
  }

  lemma {:induction false} InsertedSum(x: (nat, int), s: seq<(nat, int)>)
    ensures Sum(Seconds(Insert(x, s))) == x.1 + Sum(Seconds(s))
  {
    var t := Insert(x, s);
    if s == [] || s[0].1 <= x.1 {
      assert Seconds(t)[1..] == Seconds(s);
    } else {
      InsertedSum(x, s[1..]);
      assert Seconds(t)[1..] == Seconds(Insert(x, s[1..]));
      assert Seconds(s)[1..] == Seconds(s[1..]);
    }
  }

  lemma {:induction false} SharesSum(amount: int, m: int, ratios: seq<nat>, w: seq<int>, rem: seq<int>)
    requires |ratios| == |w| == |rem|
    requires forall i :: 0 <= i < |w| ==> rem[i] == amount * ratios[i] - m * w[i]
    ensures Sum(rem) == amount * Sum(ratios) + -m * Sum(w)
  {
    if w != [] {
      SharesSum(amount, m, ratios[1..], w[1..], rem[1..]);
      assert amount * (ratios[0] + Sum(ratios[1..])) == amount * ratios[0] + amount * Sum(ratios[1..]);
      assert -m * (w[0] + Sum(w[1..])) == -(m * w[0]) + -m * Sum(w[1..]);
    } else {
      assert Sum(rem) == Sum(ratios) == Sum(w) == 0;
    }
  }

  /** Rounding takes from all shares together the ratio total times what is left over. */
  lemma {:induction false} RemainderSum(amount: int, unit: nat, ratios: seq<nat>)
    requires unit > 0 && Sum(ratios) > 0
    ensures Sum(Seconds(Ranking(amount, unit, ratios))) == Sum(ratios) * Leftover(amount, unit, ratios)
  {
    var m := Modulus(unit, ratios);
    var w := Wholes(amount, m, ratios);
    SortedSum(Remainders(amount, m, ratios));
    SharesSum(amount, m, ratios, w, Seconds(Remainders(amount, m, ratios)));
    CollectRemainder(amount, unit, Sum(ratios), Sum(w));
  }

  /** Elements of a descending list: if the one at `k` is not positive, the list sums to at most `k` of its bound. */
  lemma {:induction false} DescendingSum(s: seq<int>, m: int, k: nat)
    requires k <= |s|
    requires forall i :: 0 <= i < |s| ==> s[i] < m
    requires forall i :: k <= i < |s| ==> s[i] <= 0
    ensures k == 0 ==> Sum(s) <= 0
    ensures k > 0 ==> Sum(s) < k * m
  {
    if s != [] {
      DescendingSum(s[1..], m, if k == 0 then 0 else k - 1);
      assert (k - 1) * m + m == k * m;
    }
  }

  lemma {:induction false} RemainderBounds(amount: int, unit: nat, ratios: seq<nat>, i: nat)
    requires unit > 0 && Sum(ratios) > 0 && i < |ratios| && amount >= 0
    ensures amount * ratios[i] >= 0
    ensures Remainder(amount, unit, ratios, i) == (amount * ratios[i]) % Modulus(unit, ratios)
    ensures 0 <= Remainder(amount, unit, ratios, i) < Modulus(unit, ratios)
  {
    assert amount * ratios[i] >= 0;
    DivMod(amount * ratios[i], Modulus(unit, ratios));
  }

  /** If the rank `k` has no remainder, the leftover is at most `k` units. */
  lemma {:induction false} LeftoverBound(amount: int, unit: nat, ratios: seq<nat>, k: nat)
    requires unit > 0 && Sum(ratios) > 0 && amount >= 0
    requires k <= |ratios| && (k < |ratios| ==> Ranking(amount, unit, ratios)[k].1 <= 0)
    ensures Leftover(amount, unit, ratios) < Times(unit, k) || Leftover(amount, unit, ratios) == k == 0
  {
    var r := Ranking(amount, unit, ratios);
    var m := Modulus(unit, ratios);
    var s := Seconds(r);
    forall i | 0 <= i < |s| ensures 0 <= s[i] < m {
      RankingEntry(amount, unit, ratios, i);
      RemainderBounds(amount, unit, ratios, r[i].0);
    }
    forall i | k <= i < |s| ensures s[i] <= 0 {
      if i > k { assert Before(r[k], r[i]); }
    }
    DescendingSum(s, m, k);
    SumNonNegative(s);
    RemainderSum(amount, unit, ratios);
    var t, l := Sum(ratios), Leftover(amount, unit, ratios);
    if k == 0 {
      SignOfFactor(t, l);
    } else {
      CancelRatio(t, unit, l, k);
    }
  }

  lemma {:induction false} LeftoverNonNegative(amount: int, unit: nat, ratios: seq<nat>)
    requires unit > 0 && Sum(ratios) > 0 && amount >= 0
    ensures Leftover(amount, unit, ratios) >= 0
  {
    var r := Ranking(amount, unit, ratios);
    forall i | 0 <= i < |r| ensures Seconds(r)[i] >= 0 {
      RankingEntry(amount, unit, ratios, i);
      RemainderBounds(amount, unit, ratios, r[i].0);
    }
    SumNonNegative(Seconds(r));
    RemainderSum(amount, unit, ratios);
    var t, l := Sum(ratios), Leftover(amount, unit, ratios);
    SignOfFactor(t, l);
  }

  // ----- The main results -----

  /**
   * The loop never runs out of recipients: every leftover unit is handed out, and each goes to
   * an index whose share was really rounded down.
   */
  lemma {:induction false} RecipientsSuffice(amount: int, unit: nat, ratios: seq<nat>)
    requires unit > 0 && Sum(ratios) > 0 && amount >= 0
    ensures ExtraUnits(amount, unit, ratios) == Leftover(amount, unit, ratios) / unit
    ensures forall i :: 0 <= i < |ratios| && Served(amount, unit, ratios, i) ==> Remainder(amount, unit, ratios, i) > 0
  {
    var l, n := Leftover(amount, unit, ratios), |ratios|;
    LeftoverNonNegative(amount, unit, ratios);
    LeftoverBound(amount, unit, ratios, n);
    DivLess(l, unit, n);
    var r := Ranking(amount, unit, ratios);
    forall i | 0 <= i < n && Served(amount, unit, ratios, i) ensures Remainder(amount, unit, ratios, i) > 0 {
      var k :| 0 <= k < ExtraUnits(amount, unit, ratios) && r[k].0 == i;
      RankingEntry(amount, unit, ratios, k);
      if r[k].1 <= 0 {
        LeftoverBound(amount, unit, ratios, k);
        DivLess(l, unit, k);
        assert false;
      }
    }
  }

  /** The parts of a non-negative amount sum to the amount truncated to the minor unit. */
  lemma {:induction false} WholesAndExtra(amount: int, unit: nat, wholes: int, left: int)
    requires unit > 0 && left == amount - unit * wholes
    ensures amount / unit == wholes + left / unit
  {
    DivMod(left, unit);
    assert unit * (wholes + left / unit) == unit * wholes + unit * (left / unit);
    DivBetween(amount, unit, wholes + left / unit);
  }

  lemma {:induction false} ExactSum(amount: int, unit: nat, ratios: seq<nat>)
    requires unit > 0 && Sum(ratios) > 0 && amount >= 0
    ensures Sum(Units(amount, unit, ratios)) == amount / unit
    ensures Sum(Allocation(amount, unit, ratios)) == amount - amount % unit
  {
    var w := Wholes(amount, Modulus(unit, ratios), ratios);
    RecipientsSuffice(amount, unit, ratios);
    LeftoverNonNegative(amount, unit, ratios);
    GiveOneSum(w, Ranking(amount, unit, ratios)[..ExtraUnits(amount, unit, ratios)]);
    WholesAndExtra(amount, unit, Sum(w), Leftover(amount, unit, ratios));
    DivMod(amount, unit);
    SumScaled(unit, Units(amount, unit, ratios), Allocation(amount, unit, ratios));
  }

  /** Quota: a part is the floor or the ceiling of its exact share, so it is less than one unit off it. */
  lemma {:induction false} Quota(amount: int, unit: nat, ratios: seq<nat>, i: nat)
    requires unit > 0 && Sum(ratios) > 0 && amount >= 0 && i < |ratios|
    ensures var m := Modulus(unit, ratios); var x := amount * ratios[i]; var u := Units(amount, unit, ratios)[i];
      && (u == x / m || (u == x / m + 1 && x % m != 0))
      && -m < m * u - x < m
      && u >= 0
    ensures ratios[i] == 0 ==> Units(amount, unit, ratios)[i] == 0
  {
    var m := Modulus(unit, ratios);
    var x := amount * ratios[i];
    UnitsAt(amount, unit, ratios, i);
    RemainderBounds(amount, unit, ratios, i);
    RecipientsSuffice(amount, unit, ratios);
    DivMod(x, m);
    QuotaOf(x, m, Units(amount, unit, ratios)[i]);
  }

  // ----- The split without a sort -----

  /** The shares rounded down. */
  function Floors(amount: int, m: int, ratios: seq<nat>): (f: seq<int>)
    requires m > 0
    ensures |f| == |ratios|
  {
    seq(|ratios|, i requires 0 <= i < |ratios| => (amount * ratios[i]) / m)
  }

  /** The indices with a larger remainder than `i`, or the same one and a lower index. */
  ghost function Ahead(amount: int, m: int, ratios: seq<nat>, i: nat): set<nat>
    requires m > 0 && i < |ratios|
  {
    set j: nat | j < |ratios| &&
      ((amount * ratios[j]) % m > (amount * ratios[i]) % m
       || ((amount * ratios[j]) % m == (amount * ratios[i]) % m && j < i))
  }

  /** The share rounded down, and one more unit for those with fewer ahead of them than there are units left over. */
  ghost function FairShare(amount: int, unit: nat, ratios: seq<nat>, i: nat): int
    requires unit > 0 && Sum(ratios) > 0 && i < |ratios|
  {
    var m := Modulus(unit, ratios);
    (amount * ratios[i]) / m
    + if |Ahead(amount, m, ratios, i)| < (amount - Times(unit, Sum(Floors(amount, m, ratios)))) / unit then 1 else 0
  }

  lemma {:induction false} ProductNonNegative(a: int, b: nat)
    requires a >= 0
    ensures a * b >= 0
  {
  }

  lemma {:induction false} FloorsAreWholes(amount: int, unit: nat, ratios: seq<nat>)
    requires unit > 0 && Sum(ratios) > 0 && amount >= 0
    ensures Floors(amount, Modulus(unit, ratios), ratios) == Wholes(amount, Modulus(unit, ratios), ratios)
  {
    forall i | 0 <= i < |ratios| ensures amount * ratios[i] >= 0 { ProductNonNegative(amount, ratios[i]); }
  }

  /** The first `k` entries of the ranking, by index. */
  ghost function FirstRanked(amount: int, unit: nat, ratios: seq<nat>, k: nat): set<nat>
    requires unit > 0 && Sum(ratios) > 0 && k <= |ratios|
  {
    set l: nat | l < k :: Ranking(amount, unit, ratios)[l].0
  }

  lemma {:induction false} FirstRankedSize(amount: int, unit: nat, ratios: seq<nat>, k: nat)
    requires unit > 0 && Sum(ratios) > 0 && k <= |ratios|
    ensures |FirstRanked(amount, unit, ratios, k)| == k
  {
    if k > 0 {
      FirstRankedSize(amount, unit, ratios, k - 1);
      var x := Ranking(amount, unit, ratios)[k - 1].0;
      forall l | 0 <= l < k - 1 ensures Ranking(amount, unit, ratios)[l].0 != x {
        RankingDistinct(amount, unit, ratios, l, k - 1);
      }
      assert FirstRanked(amount, unit, ratios, k) == FirstRanked(amount, unit, ratios, k - 1) + {x};
    }
  }

  /** Those ranked before an index are exactly those ahead of it. */
  lemma {:induction false} RankedBefore(amount: int, unit: nat, ratios: seq<nat>, k: nat)
    requires unit > 0 && Sum(ratios) > 0 && amount >= 0 && k < |ratios|
    ensures FirstRanked(amount, unit, ratios, k)
        == Ahead(amount, Modulus(unit, ratios), ratios, Ranking(amount, unit, ratios)[k].0)
  {
    var r, m := Ranking(amount, unit, ratios), Modulus(unit, ratios);
    forall l | 0 <= l < |ratios| ensures r[l] == (r[l].0, (amount * ratios[r[l].0]) % m) && r[l].0 < |ratios| {
      RankingEntry(amount, unit, ratios, l);
      RemainderBounds(amount, unit, ratios, r[l].0);
    }
    var ahead := Ahead(amount, m, ratios, r[k].0);
    forall j | j in ahead ensures j in FirstRanked(amount, unit, ratios, k) {
      var l := RankOf(amount, unit, ratios, j);
      RemainderBounds(amount, unit, ratios, j);
      assert Before(r[l], r[k]);
    }
    forall j | j in FirstRanked(amount, unit, ratios, k) ensures j in ahead {
      var l: nat :| l < k && r[l].0 == j;
      assert Before(r[l], r[k]);
    }
  }

  /** A part of a non-negative amount, computed from the remainders alone. */
  lemma {:induction false} UnitsAreFair(amount: int, unit: nat, ratios: seq<nat>, i: nat)
    requires unit > 0 && Sum(ratios) > 0 && amount >= 0 && i < |ratios|
    ensures Units(amount, unit, ratios)[i] == FairShare(amount, unit, ratios, i)
  {
    var r := Ranking(amount, unit, ratios);
    var k := RankOf(amount, unit, ratios, i);
    RankedBefore(amount, unit, ratios, k);
    FirstRankedSize(amount, unit, ratios, k);
    FloorsAreWholes(amount, unit, ratios);
    RecipientsSuffice(amount, unit, ratios);
    UnitsAt(amount, unit, ratios, i);
    ProductNonNegative(amount, ratios[i]);
    if Served(amount, unit, ratios, i) {
      var l :| 0 <= l < ExtraUnits(amount, unit, ratios) && r[l].0 == i;
      if l < k { RankingDistinct(amount, unit, ratios, l, k); }
      if k < l { RankingDistinct(amount, unit, ratios, k, l); }
    }
  }

  /** Leftover units go to the largest remainders, ties to the lower index. */
  lemma {:induction false} ServedComeFirst(amount: int, unit: nat, ratios: seq<nat>, i: nat, j: nat)
    requires unit > 0 && Sum(ratios) > 0 && i < |ratios| && j < |ratios|
    requires Served(amount, unit, ratios, i) && !Served(amount, unit, ratios, j)
    ensures Remainder(amount, unit, ratios, i) > Remainder(amount, unit, ratios, j)
         || (Remainder(amount, unit, ratios, i) == Remainder(amount, unit, ratios, j) && i < j)
  {
    var k :| 0 <= k < ExtraUnits(amount, unit, ratios) && Ranking(amount, unit, ratios)[k].0 == i;
    RankingEntry(amount, unit, ratios, k);
    var l := RankOf(amount, unit, ratios, j);
    assert k < l;
    assert Before(Ranking(amount, unit, ratios)[k], Ranking(amount, unit, ratios)[l]);
  }

  /** A strictly larger ratio never gets a smaller part. */
  lemma {:induction false} LargerRatioNotLess(amount: int, unit: nat, ratios: seq<nat>, i: nat, j: nat)
    requires unit > 0 && Sum(ratios) > 0 && amount >= 0 && i < |ratios| && j < |ratios|
    requires ratios[i] > ratios[j]
    ensures Units(amount, unit, ratios)[i] >= Units(amount, unit, ratios)[j]
  {
    UnitsAt(amount, unit, ratios, i);
    UnitsAt(amount, unit, ratios, j);
    var m := Modulus(unit, ratios);
    var x, y := amount * ratios[i], amount * ratios[j];
    if amount > 0 { MulStep(amount, ratios[j], ratios[i]); }
    assert 0 <= y <= x;
    DivMonotone(y, x, m);
    if x / m == y / m && Served(amount, unit, ratios, j) && !Served(amount, unit, ratios, i) {
      LargerRatioServed(amount, unit, ratios, i, j);
    }
  }

  lemma {:induction false} LargerRemainder(amount: int, a: nat, b: nat, m: int)
    requires amount >= 0 && a < b && m > 0 && (amount * a) / m == (amount * b) / m
    ensures (amount * a) % m < (amount * b) % m || (amount * a) % m == 0
  {
    DivMod(amount * a, m);
    DivMod(amount * b, m);
    if amount > 0 { MulStep(amount, a, b); }
  }

  lemma {:induction false} LargerRatioServed(amount: int, unit: nat, ratios: seq<nat>, i: nat, j: nat)
    requires unit > 0 && Sum(ratios) > 0 && amount >= 0 && i < |ratios| && j < |ratios|
    requires ratios[i] > ratios[j]
    requires (amount * ratios[i]) / Modulus(unit, ratios) == (amount * ratios[j]) / Modulus(unit, ratios)
    requires Served(amount, unit, ratios, j)
    ensures Served(amount, unit, ratios, i)
  {
    var m := Modulus(unit, ratios);
    RemainderBounds(amount, unit, ratios, i);
    RemainderBounds(amount, unit, ratios, j);
    RecipientsSuffice(amount, unit, ratios);
    LargerRemainder(amount, ratios[j], ratios[i], m);
    if !Served(amount, unit, ratios, i) {
      ServedComeFirst(amount, unit, ratios, j, i);
    }
  }

  // ----- Optimality -----

  function Abs(x: int): int { if x < 0 then -x else x }

  /** Distances of a split (in units) from the exact proportional shares, scaled by the modulus. */
  function Deviations(q: seq<int>, amount: int, m: int, ratios: seq<nat>): (d: seq<int>)
    requires |q| == |ratios|
    ensures |d| == |q|
  {
    seq(|q|, i requires 0 <= i < |q| => Abs(m * q[i] - amount * ratios[i]))
  }

  /**
   * The exchange argument at one index. With `t` between the served and the unserved remainders,
   * moving `d` units from the rounded share costs at least `(m - 2t) * d` more than the split's
   * own choice of `e` units.
   */
  lemma {:induction false} PriceExpand(d: int, m: int, t: int)
    ensures (m - 2 * t) * d == m * d - 2 * (t * d)
    ensures (m - t) * d == m * d - t * d
  {
  }

  lemma {:induction false} PriceSigns(d: int, m: int, t: int)
    requires 0 <= t <= m
    ensures d >= 1 ==> m * d >= m && t * d >= t && (m - t) * d >= m - t
    ensures d <= 0 ==> m * d <= 0 && t * d <= 0 && (m - t) * d <= 0
  {
    if d >= 1 {
      MulStepUp(m, d);
      MulStepUp(t, d);
      MulStepUp(m - t, d);
    }
  }

  lemma {:induction false} MulStepUp(m: int, d: int)
    requires m >= 0 && d >= 1
    ensures m * d >= m
  {
  }

  lemma {:induction false} PricedChoice(d: int, e: int, rem: int, m: int, t: int)
    requires 0 <= rem < m && 0 <= t <= m
    requires (e == 0 && rem <= t) || (e == 1 && t <= rem)
    ensures Abs(m * d - rem) - (m - 2 * t) * d >= Abs(m * e - rem) - (m - 2 * t) * e
  {
    PriceExpand(d, m, t);
    PriceSigns(d, m, t);
    assert m * e == (if e == 1 then m else 0) && (m - 2 * t) * e == if e == 1 then m - 2 * t else 0;
  }

  lemma {:induction false} PricedShift(q: int, u: int, f: int, x: int, m: int, t: int)
    requires Abs(m * (q - f) - (x - m * f)) - (m - 2 * t) * (q - f) >= Abs(m * (u - f) - (x - m * f))
        - (m - 2 * t) * (u - f)
    ensures Abs(m * q - x) + (2 * t - m) * q >= Abs(m * u - x) + (2 * t - m) * u
  {
    assert m * (q - f) - (x - m * f) == m * q - x;
    assert m * (u - f) - (x - m * f) == m * u - x;
    var p := m - 2 * t;
    assert p * (q - f) == p * q - p * f;
    assert p * (u - f) == p * u - p * f;
    assert -p * q == -(p * q) && -p * u == -(p * u);
  }

  lemma {:induction false} PricedChoices(q: int, amount: int, unit: nat, ratios: seq<nat>, t: int, i: nat)
    requires unit > 0 && Sum(ratios) > 0 && amount >= 0 && i < |ratios|
    requires 0 <= t <= Modulus(unit, ratios)
    requires if Served(amount, unit, ratios, i) then t <= Remainder(amount, unit, ratios, i)
        else Remainder(amount, unit, ratios, i) <= t
    ensures var m := Modulus(unit, ratios); var u := Units(amount, unit, ratios)[i]; var x := amount * ratios[i];
      Abs(m * q - x) + (2 * t - m) * q >= Abs(m * u - x) + (2 * t - m) * u
  {
    var m := Modulus(unit, ratios);
    var u := Units(amount, unit, ratios)[i];
    var x := amount * ratios[i];
    RemainderBounds(amount, unit, ratios, i);
    UnitsAt(amount, unit, ratios, i);
    DivMod(x, m);
    PricedChoice(q - x / m, u - x / m, x % m, m, t);
    PricedShift(q, u, x / m, x, m, t);
  }

  /** A price between the remainders that were served and those that were not. */
  lemma {:induction false} Threshold(amount: int, unit: nat, ratios: seq<nat>) returns (t: int)
    requires unit > 0 && Sum(ratios) > 0 && amount >= 0
    ensures 0 <= t <= Modulus(unit, ratios)
    ensures forall i :: 0 <= i < |ratios| ==>
      if Served(amount, unit, ratios, i) then t <= Remainder(amount, unit, ratios, i)
      else Remainder(amount, unit, ratios, i) <= t
  {
    var e := ExtraUnits(amount, unit, ratios);
    var r := Ranking(amount, unit, ratios);
    t := if e == 0 then Modulus(unit, ratios) else r[e - 1].1;
    if e > 0 {
      RankingEntry(amount, unit, ratios, e - 1);
      RemainderBounds(amount, unit, ratios, r[e - 1].0);
    }
    forall i | 0 <= i < |ratios| ensures
      if Served(amount, unit, ratios, i) then t <= Remainder(amount, unit, ratios, i)
      else Remainder(amount, unit, ratios, i) <= t
    {
      RemainderBounds(amount, unit, ratios, i);
      var k := RankOf(amount, unit, ratios, i);
      if Served(amount, unit, ratios, i) {
        var j :| 0 <= j < e && r[j].0 == i;
        RankingEntry(amount, unit, ratios, j);
        if j < e - 1 { assert Before(r[j], r[e - 1]); }
      } else if e > 0 {
        assert Before(r[e - 1], r[k]);
      }
    }
  }

  /**
   * Optimality: no other whole-unit split with the same sum is closer, in total absolute
   * deviation, to the exact proportional shares.
   */
  lemma {:induction false} Optimal(amount: int, unit: nat, ratios: seq<nat>, q: seq<int>)
    requires unit > 0 && Sum(ratios) > 0 && amount >= 0
    requires |q| == |ratios| && Sum(q) == amount / unit
    ensures Sum(Deviations(Units(amount, unit, ratios), amount, Modulus(unit, ratios), ratios))
         <= Sum(Deviations(q, amount, Modulus(unit, ratios), ratios))
  {
    var m := Modulus(unit, ratios);
    var u := Units(amount, unit, ratios);
    var t := Threshold(amount, unit, ratios);
    var dq, du := Deviations(q, amount, m, ratios), Deviations(u, amount, m, ratios);
    var n, c := |ratios|, 2 * t - m;
    var pq := seq(n, i requires 0 <= i < n => dq[i] + c * q[i]);
    var pu := seq(n, i requires 0 <= i < n => du[i] + c * u[i]);
    forall i | 0 <= i < n ensures pu[i] <= pq[i] {
      PricedChoices(q[i], amount, unit, ratios, t, i);
    }
    SumMonotone(pu, pq);
    SumLinear(dq, c, q, pq);
    SumLinear(du, c, u, pu);
    ExactSum(amount, unit, ratios);
  }

  // ----- Amounts below zero, and amounts finer than the minor unit -----

  /** Every share comes out in whole minor units. */
  predicate SharesWhole(amount: int, unit: nat, ratios: seq<nat>)
    requires unit > 0 && Sum(ratios) > 0
  {
    forall i :: 0 <= i < |ratios| ==> (amount * ratios[i]) % Modulus(unit, ratios) == 0
  }

  lemma {:induction false} NegatedModulus(x: int, m: int)
    requires m > 0 && x % m == 0
    ensures (-x) % m == 0
  {
    DivMod(x, m);
    DivMod(-x, m);
    var q := x / m;
    assert m * -q == -(m * q);
    DivBetween(-x, m, -q);
  }

  lemma {:induction false} TruncateNegative(x: int, m: int)
    requires m > 0 && x <= 0
    ensures m * Truncate(x, m) >= x
    ensures m * Truncate(x, m) == x <==> x % m == 0
  {
    DivMod(-x, m);
    var q := (-x) / m;
    assert m * -q == -(m * q);
    assert Truncate(x, m) == -q;
    if x % m == 0 { NegatedModulus(x, m); }
    if (-x) % m == 0 { NegatedModulus(-x, m); }
  }

  /** No unit is added back to the parts of a negative amount. */
  lemma {:induction false} NegativeParts(amount: int, unit: nat, ratios: seq<nat>)
    requires unit > 0 && Sum(ratios) > 0 && amount < 0
    ensures Leftover(amount, unit, ratios) <= 0 && ExtraUnits(amount, unit, ratios) == 0
    ensures Leftover(amount, unit, ratios) == 0 <==> SharesWhole(amount, unit, ratios)
  {
    var m := Modulus(unit, ratios);
    var r := Ranking(amount, unit, ratios);
    var taken := seq(|r|, k requires 0 <= k < |r| => -r[k].1);
    forall k | 0 <= k < |r| ensures taken[k] >= 0 && (taken[k] == 0 <==> (amount * ratios[r[k].0]) % m == 0) {
      RankingEntry(amount, unit, ratios, k);
      assert amount * ratios[r[k].0] <= 0;
      TruncateNegative(amount * ratios[r[k].0], m);
    }
    SumNonNegative(taken);
    SumScaled(-1, Seconds(r), taken);
    RemainderSum(amount, unit, ratios);
    var t, l := Sum(ratios), Leftover(amount, unit, ratios);
    SignOfFactor(t, l);
    if l == 0 {
      forall i | 0 <= i < |ratios| ensures (amount * ratios[i]) % m == 0 {
        var k := RankOf(amount, unit, ratios, i);
        assert taken[k] <= 0;
      }
    } else {
      if SharesWhole(amount, unit, ratios) {
        forall k | 0 <= k < |taken| ensures taken[k] == 0 { RankingEntry(amount, unit, ratios, k); }
        SumZeroes(taken);
      }
    }
  }

  /** Each part of a negative amount is its share rounded toward zero, and no more. */
  lemma {:induction false} NegativePart(amount: int, unit: nat, ratios: seq<nat>, i: nat)
    requires unit > 0 && Sum(ratios) > 0 && amount < 0 && i < |ratios|
    ensures Allocation(amount, unit, ratios)[i] == -(unit * ((-(amount * ratios[i])) / Modulus(unit, ratios)))
  {
    NegativeParts(amount, unit, ratios);
    assert Units(amount, unit, ratios) == Wholes(amount, Modulus(unit, ratios), ratios);
    ProductNonPositive(amount, ratios[i]);
    NegativeShare(unit, amount * ratios[i], Modulus(unit, ratios));
  }

  lemma {:induction false} NegativeShare(unit: nat, share: int, m: int)
    requires m > 0 && share <= 0
    ensures Times(unit, Truncate(share, m)) == -(unit * ((-share) / m))
  {
    var q := (-share) / m;
    assert unit * -q == -(unit * q);
  }

  lemma {:induction false} ProductNonPositive(a: int, b: nat)
    requires a <= 0
    ensures a * b <= 0
  {
  }

  /**
   * The law the documentation states, on every input: the parts sum exactly back to the amount
   * if and only if the amount is in whole minor units and is not negative, or every share of it
   * is in whole minor units.
   */
  lemma {:induction false} SumsBackIff(amount: int, unit: nat, ratios: seq<nat>)
    requires unit > 0 && Sum(ratios) > 0
    ensures Sum(Allocation(amount, unit, ratios)) == amount
       <==> (amount % unit == 0 && amount >= 0) || (amount < 0 && SharesWhole(amount, unit, ratios))
  {
    if amount >= 0 {
      ExactSum(amount, unit, ratios);
    } else {
      var w := Wholes(amount, Modulus(unit, ratios), ratios);
      NegativeParts(amount, unit, ratios);
      GiveOneSum(w, Ranking(amount, unit, ratios)[..0]);
      assert Units(amount, unit, ratios) == GiveOne(w, Ranking(amount, unit, ratios)[..0]);
      SumScaled(unit, Units(amount, unit, ratios), Allocation(amount, unit, ratios));
    }
  }

  /** A refund of one dollar written as a negative amount loses a cent over three equal ratios. */
  lemma {:induction false} NegativeAmountLosesACent()
    ensures Sum([1, 1, 1]) == 3
    ensures Sum(Allocation(-100, 1, [1, 1, 1])) != -100
  {
    var ratios: seq<nat> := [1, 1, 1];
    assert ratios[1..] == [1, 1] && ratios[1..][1..] == [1];
    assert Sum([1]) == 1 && Sum([1, 1]) == 1 + Sum([1, 1][1..]);
    assert Sum(ratios) == 3;
    SumsBackIff(-100, 1, ratios);
    assert (-100 * ratios[0]) % Modulus(1, ratios) != 0;
  }
}
