/**
 * `Money::allocate`: the largest-remainder split.
 *
 * An amount is an integer number of the finest pieces its decimal shows; `unit` is how many of
 * those pieces make one minor unit (1 for an amount in whole cents, 10 for one with a tenth of
 * a cent, and so on).
 */
module Money {
  import opened Numbers
  import opened Sums
  import opened Wrappers

  datatype MoneyError = EmptyRatios | ZeroTotalRatio

  /** Division rounding toward zero, the source's `ToZero` strategy. */
  function Truncate(a: int, b: int): int
    requires b > 0
  {
    if a >= 0 then a / b else -((-a) / b)
  }

  // ----- The sort of the remainders -----

  /** Puts `x` in front of the first element that is not larger: equal keys keep their order. */
  function Insert(x: (nat, int), s: seq<(nat, int)>): seq<(nat, int)> {
    if s == [] || s[0].1 <= x.1 then [x] + s else [s[0]] + Insert(x, s[1..])
  }

  /** The stable descending sort of the source's `sort_by_key(Reverse)`. */
  function SortDescending(s: seq<(nat, int)>): (r: seq<(nat, int)>)
    ensures |r| == |s|
  {
    if s == [] then [] else InsertLength(s[0], SortDescending(s[1..])); Insert(s[0], SortDescending(s[1..]))
  }

  lemma {:induction false} InsertLength(x: (nat, int), s: seq<(nat, int)>)
    ensures |Insert(x, s)| == |s| + 1
  {
    if s != [] { InsertLength(x, s[1..]); }
  }

  /** `a` is served before `b`: a larger remainder, or an equal one at a lower index. */
  predicate Before(a: (nat, int), b: (nat, int)) {
    a.1 > b.1 || (a.1 == b.1 && a.0 < b.0)
  }

  predicate Ranked(s: seq<(nat, int)>) {
    forall i, j :: 0 <= i < j < |s| ==> Before(s[i], s[j])
  }

  predicate IncreasingIndices(s: seq<(nat, int)>) {
    forall i, j :: 0 <= i < j < |s| ==> s[i].0 < s[j].0
  }

  lemma {:induction false} InsertContents(x: (nat, int), s: seq<(nat, int)>)
    ensures multiset(Insert(x, s)) == multiset{x} + multiset(s)
  {
    if s == [] || s[0].1 <= x.1 {
      assert multiset([x] + s) == multiset{x} + multiset(s);
    } else {
      InsertContents(x, s[1..]);
      assert s == [s[0]] + s[1..];
    }
  }

  lemma {:induction false} InsertRanks(x: (nat, int), s: seq<(nat, int)>)
    requires Ranked(s)
    requires forall i :: 0 <= i < |s| ==> x.0 < s[i].0
    ensures Ranked(Insert(x, s))
  {
    if s != [] && s[0].1 > x.1 {
      var t := Insert(x, s[1..]);
      InsertRanks(x, s[1..]);
      InsertContents(x, s[1..]);
      forall j | 0 <= j < |t| ensures Before(s[0], t[j]) {
        assert t[j] in multiset(t);
        if t[j] != x {
          assert t[j] in multiset(s[1..]);
          assert t[j] in s[1..];
        }
      }
    }
  }

  lemma {:induction false} SortRanks(s: seq<(nat, int)>)
    requires IncreasingIndices(s)
    ensures Ranked(SortDescending(s))
    ensures multiset(SortDescending(s)) == multiset(s)
  {
    if s != [] {
      var t := SortDescending(s[1..]);
      SortRanks(s[1..]);
      forall i | 0 <= i < |t| ensures s[0].0 < t[i].0 {
        assert t[i] in multiset(t);
        assert t[i] in s[1..];
      }
      InsertRanks(s[0], t);
      InsertContents(s[0], t);
      assert s == [s[0]] + s[1..];
    }
  }

  // ----- The split as a function of its inputs -----

  /** Each share rounded toward zero, in whole minor units; `m` is `unit` times the ratio total. */
  function Wholes(amount: int, m: int, ratios: seq<nat>): (w: seq<int>)
    requires m > 0
    ensures |w| == |ratios|
  {
    seq(|ratios|, i requires 0 <= i < |ratios| => Truncate(amount * ratios[i], m))
  }

  /** What rounding took from each share, scaled by the ratio total, tagged with its index. */
  function Remainders(amount: int, m: int, ratios: seq<nat>): (r: seq<(nat, int)>)
    requires m > 0
    ensures |r| == |ratios|
  {
    seq(|ratios|, i requires 0 <= i < |ratios| => (i, amount * ratios[i] - m * Truncate(amount * ratios[i], m)))
  }

  function Seconds(s: seq<(nat, int)>): (r: seq<int>)
    ensures |r| == |s|
  {
    seq(|s|, i requires 0 <= i < |s| => s[i].1)
  }

  /** One minor unit more for every index listed in `order`. */
  function GiveOne(parts: seq<int>, order: seq<(nat, int)>): (r: seq<int>)
    requires Indexed(order, |parts|)
    ensures |r| == |parts|
  {
    if order == [] then parts
    else
      var p := GiveOne(parts, order[..|order| - 1]);
      var i := order[|order| - 1].0;
      p[i := p[i] + 1]
  }

  /** How many of `n` recipients get a unit before `leftover >= unit` fails. */
  function Affordable(leftover: int, unit: nat, n: nat): (e: nat)
    requires unit > 0
    ensures e <= n
  {
    if leftover < 0 then 0 else if leftover / unit < n then leftover / unit else n
  }

  function Leftover(amount: int, unit: nat, ratios: seq<nat>): int
    requires unit > 0 && Sum(ratios) > 0
  {
    MulPositive(unit, Sum(ratios));
    amount - Times(unit, Sum(Wholes(amount, unit * Sum(ratios), ratios)))
  }

  function ExtraUnits(amount: int, unit: nat, ratios: seq<nat>): (e: nat)
    requires unit > 0 && Sum(ratios) > 0
    ensures e <= |ratios|
  {
    Affordable(Leftover(amount, unit, ratios), unit, |ratios|)
  }

  function Times(a: int, b: int): int { a * b }

  lemma {:induction false} MulPositive(a: int, b: int)
    requires a > 0 && b > 0
    ensures a * b > 0
  {}

  ghost predicate Indexed(s: seq<(nat, int)>, n: nat) {
    forall i :: 0 <= i < |s| ==> s[i].0 < n
  }

  /** Remainders in the order in which leftover units are handed out. */
  function Ranking(amount: int, unit: nat, ratios: seq<nat>): (r: seq<(nat, int)>)
    requires unit > 0 && Sum(ratios) > 0
    ensures |r| == |ratios|
    ensures Indexed(r, |ratios|)
    ensures Ranked(r)
    ensures multiset(r) == (MulPositive(unit, Sum(ratios)); multiset(Remainders(amount, unit * Sum(ratios), ratios)))
  {
    MulPositive(unit, Sum(ratios));
    var s := Remainders(amount, unit * Sum(ratios), ratios);
    SortRanks(s);
    var r := SortDescending(s);
    assert forall i :: 0 <= i < |r| ==> r[i] in multiset(r);
    assert forall i :: 0 <= i < |r| ==> r[i] in s;
    r
  }

  /** The parts in minor units. */
  function Units(amount: int, unit: nat, ratios: seq<nat>): (r: seq<int>)
    requires unit > 0 && Sum(ratios) > 0
    ensures |r| == |ratios|
  {
    MulPositive(unit, Sum(ratios));
    GiveOne(Wholes(amount, unit * Sum(ratios), ratios),
            Ranking(amount, unit, ratios)[..ExtraUnits(amount, unit, ratios)])
  }

  /** The parts as amounts. */
  function Allocation(amount: int, unit: nat, ratios: seq<nat>): (r: seq<int>)
    requires unit > 0 && Sum(ratios) > 0
    ensures |r| == |ratios|
  {
    seq(|ratios|, i requires 0 <= i < |ratios| => Times(unit, Units(amount, unit, ratios)[i]))
  }

  /** The split, or the reason there is none. */
  function AllocateResult(amount: int, unit: nat, ratios: seq<nat>): Result<seq<int>, MoneyError>
    requires unit > 0
  {
    if ratios == [] then Err(EmptyRatios)
    else if Sum(ratios) <= 0 then Err(ZeroTotalRatio)
    else Ok(Allocation(amount, unit, ratios))
  }

  // ----- The source's loops -----

  /** First pass: every share rounded toward zero, what rounding took, and the amount handed out. */
  method RoundDown(amount: int, unit: nat, ratios: seq<nat>, totalRatio: int)
    returns (parts: seq<int>, remainders: seq<(nat, int)>, handedOut: int)
    requires unit > 0 && totalRatio == Sum(ratios) > 0 && unit * totalRatio > 0
    ensures Scaled(parts, unit, Wholes(amount, unit * totalRatio, ratios))
    ensures remainders == Remainders(amount, unit * totalRatio, ratios)
    ensures handedOut == Times(unit, Sum(Wholes(amount, unit * totalRatio, ratios)))
  {
    ghost var m := unit * totalRatio;
    ghost var wholes := Wholes(amount, m, ratios);
    parts, remainders, handedOut := seq(|ratios|, _ => 0), [], 0;
    for i := 0 to |ratios|
      invariant |parts| == |ratios|
      invariant forall k :: 0 <= k < i ==> parts[k] == Times(unit, wholes[k])
      invariant remainders == Remainders(amount, m, ratios)[..i]
      invariant handedOut == Times(unit, Sum(wholes[..i]))
    {
      var share := amount * ratios[i];
      var whole := unit * Truncate(share, unit * totalRatio);
      var rem := share - whole * totalRatio;
      Regroup(unit, wholes[i], totalRatio);
      parts := parts[i := whole];
      SumPrefix(wholes, i);
      Distribute(unit, Sum(wholes[..i]), wholes[i]);
      handedOut := handedOut + whole;
      remainders := remainders + [(i, rem)];
    }
    assert wholes[..|ratios|] == wholes;
  }

  /** Second pass: one unit to each ranked index while a whole unit is left over. */
  method HandOut(parts0: seq<int>, unit: nat, remainders: seq<(nat, int)>, start: int, ghost wholes: seq<int>)
    returns (parts: seq<int>)
    requires unit > 0 && |remainders| == |wholes|
    requires Indexed(remainders, |wholes|) && Scaled(parts0, unit, wholes)
    ensures Indexed(remainders[..Affordable(start, unit, |wholes|)], |wholes|)
    ensures Scaled(parts, unit, GiveOne(wholes, remainders[..Affordable(start, unit, |wholes|)]))
  {
    parts := parts0;
    var leftover := start;
    ghost var extra := Affordable(start, unit, |wholes|);
    assert Indexed(remainders[..0], |wholes|) && GiveOne(wholes, remainders[..0]) == wholes;
    for k := 0 to |remainders|
      invariant leftover == start - Times(unit, Min(k, extra))
      invariant Indexed(remainders[..Min(k, extra)], |wholes|)
      invariant Scaled(parts, unit, GiveOne(wholes, remainders[..Min(k, extra)]))
    {
      var i := remainders[k].0;
      LeftoverTest(start, unit, |wholes|, extra, k);
      if leftover >= unit {
        GiveOneMore(wholes, remainders, k);
        ScaledStep(parts, unit, GiveOne(wholes, remainders[..k]), i);
        parts := parts[i := parts[i] + unit];
        Distribute(unit, k, 1);
        leftover := leftover - unit;
      }
    }
  }

  /** The method as written: one pass for the rounded shares, a sort, one pass over the leftover. */
  method Allocate(amount: int, unit: nat, ratios: seq<nat>) returns (r: Result<seq<int>, MoneyError>)
    requires unit > 0
    ensures r == AllocateResult(amount, unit, ratios)
  {
    if |ratios| == 0 {
      return Err(EmptyRatios);
    }
    SumNonNegative(ratios);
    var totalRatio := Sum(ratios);
    if totalRatio == 0 {
      return Err(ZeroTotalRatio);
    }
    MulPositive(unit, totalRatio);
    var parts, remainders, handedOut := RoundDown(amount, unit, ratios, totalRatio);
    var leftover := amount - handedOut;
    remainders := SortDescending(remainders);
    assert remainders == Ranking(amount, unit, ratios);
    ghost var wholes := Wholes(amount, unit * totalRatio, ratios);
    parts := HandOut(parts, unit, remainders, leftover, wholes);
    assert parts == Allocation(amount, unit, ratios);
    r := Ok(parts);
  }

  lemma {:induction false} Distribute(a: int, b: int, c: int)
    ensures Times(a, b + c) == Times(a, b) + a * c
  {}

  /** `parts` are the amounts of so many `units`. */
  ghost predicate Scaled(parts: seq<int>, unit: int, units: seq<int>) {
    |parts| == |units| && forall i :: 0 <= i < |parts| ==> parts[i] == Times(unit, units[i])
  }

  lemma {:induction false} ScaledStep(parts: seq<int>, unit: int, units: seq<int>, i: nat)
    requires Scaled(parts, unit, units) && i < |parts|
    ensures Scaled(parts[i := parts[i] + unit], unit, units[i := units[i] + 1])
  {
    Distribute(unit, units[i], 1);
  }

  lemma {:induction false} GiveOneMore(parts: seq<int>, order: seq<(nat, int)>, k: nat)
    requires Indexed(order, |parts|) && k < |order|
    ensures Indexed(order[..k], |parts|) && Indexed(order[..k + 1], |parts|)
    ensures var g := GiveOne(parts, order[..k]); var i := order[k].0;
      GiveOne(parts, order[..k + 1]) == g[i := g[i] + 1]
  {
    assert order[..k + 1][..k] == order[..k];
  }

  lemma {:induction false} Regroup(a: int, b: int, c: int)
    ensures (a * b) * c == (a * c) * b
  {}

  /** The test `leftover >= unit` at position `k` is the question whether `k < extra`. */
  lemma {:induction false} LeftoverTest(start: int, unit: nat, n: nat, extra: nat, k: nat)
    requires unit > 0 && k < n
    requires extra == Affordable(start, unit, n)
    ensures start - Times(unit, Min(k, extra)) >= unit <==> k < extra
  {
    if start >= 0 {
      UnitsLeft(start, unit, k);
      UnitsLeft(start, unit, extra);
    }
  }

  lemma {:induction false} UnitsLeft(start: int, unit: nat, k: nat)
    requires unit > 0
    ensures start - Times(unit, k) >= unit <==> k < start / unit
  {
    var q := start / unit;
    assert start == unit * q + start % unit;
    if k < q {
      assert unit * (k + 1) <= unit * q;
    } else {
      assert unit * q <= unit * k;
    }
    assert unit * (k + 1) == unit * k + unit;
  }
}
