/** Split tender: a sale total apportioned over several payment instruments. */
module Tenders {
  import opened Sums
  import opened Wrappers
  import opened Money
  import opened LargestRemainder

  datatype TenderKind = Cash | Card | GiftCard | StoreCredit

  datatype Tender = Tender(kind: TenderKind, amount: int)

  datatype TenderError = EmptyTenders | Underfunded(covered: int, total: int)

  /** The amount in whole minor units, a negative one counting as nothing. */
  function Weight(amount: int, unit: nat): nat
    requires unit > 0
  {
    if amount >= 0 then amount / unit else 0
  }

  function Amounts(tenders: seq<Tender>): (a: seq<int>)
    ensures |a| == |tenders|
  {
    seq(|tenders|, i requires 0 <= i < |tenders| => tenders[i].amount)
  }

  function Weights(tenders: seq<Tender>, unit: nat): (w: seq<nat>)
    requires unit > 0
    ensures |w| == |tenders|
  {
    seq(|tenders|, i requires 0 <= i < |tenders| => Weight(tenders[i].amount, unit))
  }

  function SplitTotal(total: int, tenders: seq<Tender>, unit: nat): Result<seq<int>, TenderError>
    requires unit > 0
  {
    if tenders == [] then Err(EmptyTenders)
    else if Sum(Amounts(tenders)) < total then Err(Underfunded(Sum(Amounts(tenders)), total))
    else match AllocateResult(total, unit, Weights(tenders, unit))
      case Err(_) => Err(EmptyTenders)
      case Ok(parts) => Ok(parts)
  }

  /** What a captured sale holds: whole minor units, none negative. */
  ghost predicate WholeCents(tenders: seq<Tender>, unit: nat)
    requires unit > 0
  {
    forall i :: 0 <= i < |tenders| ==> tenders[i].amount >= 0 && tenders[i].amount % unit == 0
  }

  lemma {:induction false} WeightOfWhole(amount: int, unit: nat)
    requires unit > 0 && amount >= 0 && amount % unit == 0
    ensures amount == unit * Weight(amount, unit)
  {
    DivMod(amount, unit);
  }

  lemma {:induction false} WeightsSum(tenders: seq<Tender>, unit: nat)
    requires unit > 0 && WholeCents(tenders, unit)
    ensures Sum(Amounts(tenders)) == unit * Sum(Weights(tenders, unit))
  {
    forall i | 0 <= i < |tenders| ensures Amounts(tenders)[i] == unit * Weights(tenders, unit)[i] {
      WeightOfWhole(tenders[i].amount, unit);
    }
    SumScaled(unit, Weights(tenders, unit), Amounts(tenders));
  }

  /** Weights of tenders that cover a positive total of whole cents are never all zero. */
  lemma {:induction false} CoveredHasWeight(total: int, tenders: seq<Tender>, unit: nat)
    requires unit > 0 && Sum(Amounts(tenders)) >= total > 0 && WholeCents(tenders, unit)
    ensures tenders != [] && Sum(Weights(tenders, unit)) > 0
  {
    WeightsSum(tenders, unit);
    SignOfFactor(unit, Sum(Weights(tenders, unit)));
  }

  /**
   * A whole-cent amount between nothing and everything, split over whole-cent tenders in
   * proportion to what they paid: the parts are whole cents, sum exactly to the amount, and no
   * part exceeds its tender.
   */
  lemma {:induction false} SplitWithinTenders(amount: int, tenders: seq<Tender>, unit: nat)
    requires unit > 0 && WholeCents(tenders, unit)
    requires 0 <= amount <= Sum(Amounts(tenders)) && amount % unit == 0 && Sum(Amounts(tenders)) > 0
    ensures SplitTotal(amount, tenders, unit).Ok?
    ensures var parts := SplitTotal(amount, tenders, unit).value;
      && |parts| == |tenders| && Sum(parts) == amount
      && forall i :: 0 <= i < |parts| ==> 0 <= parts[i] <= tenders[i].amount && parts[i] % unit == 0
  {
    var w := Weights(tenders, unit);
    CoveredHasWeight(Sum(Amounts(tenders)), tenders, unit);
    WeightsSum(tenders, unit);
    ExactSum(amount, unit, w);
    var parts := Allocation(amount, unit, w);
    forall i | 0 <= i < |parts| ensures 0 <= parts[i] <= tenders[i].amount && parts[i] % unit == 0 {
      PartWithinTender(amount, tenders, unit, i);
    }
  }

  lemma {:induction false} PartWithinTender(amount: int, tenders: seq<Tender>, unit: nat, i: nat)
    requires unit > 0 && WholeCents(tenders, unit) && i < |tenders|
    requires 0 <= amount <= Sum(Amounts(tenders)) && amount % unit == 0 && Sum(Weights(tenders, unit)) > 0
    ensures 0 <= Allocation(amount, unit, Weights(tenders, unit))[i] <= tenders[i].amount
    ensures Allocation(amount, unit, Weights(tenders, unit))[i] % unit == 0
  {
    var w := Weights(tenders, unit);
    WeightsSum(tenders, unit);
    Quota(amount, unit, w, i);
    var m, u := Modulus(unit, w), Units(amount, unit, w)[i];
    assert m == Sum(Amounts(tenders));
    ProductBounded(amount, m, w[i], u);
    MulStep(unit, u, w[i]);
    MulStep(unit, 0, u);
    WeightOfWhole(tenders[i].amount, unit);
    MultipleOf(unit, u);
  }

  lemma {:induction false} MultipleOf(unit: int, u: int)
    requires unit > 0
    ensures Times(unit, u) % unit == 0
    ensures Times(unit, u) / unit == u
  {
    DivBetween(unit * u, unit, u);
    DivMod(unit * u, unit);
  }

  lemma {:induction false} ProductBounded(amount: int, m: int, w: nat, u: int)
    requires 0 <= amount <= m && m > 0 && m * u - amount * w < m
    ensures u <= w
  {
    MulStep(w + 1, amount, m);
    assert amount * w <= m * w;
    MulStep(m, w, u);
    assert m * (w + 1) == m * w + m;
    MulStep(m, w + 1, u);
  }

  /** Splitting the whole of what was tendered gives every tender back exactly. */
  lemma {:induction false} SplitAllReproduces(tenders: seq<Tender>, unit: nat)
    requires unit > 0 && WholeCents(tenders, unit) && Sum(Amounts(tenders)) > 0
    requires Sum(Amounts(tenders)) % unit == 0
    ensures SplitTotal(Sum(Amounts(tenders)), tenders, unit) == Ok(Amounts(tenders))
  {
    var total := Sum(Amounts(tenders));
    var w := Weights(tenders, unit);
    SplitWithinTenders(total, tenders, unit);
    WeightsSum(tenders, unit);
    SignOfFactor(unit, Sum(w));
    var parts := Allocation(total, unit, w);
    forall i | 0 <= i < |parts| ensures parts[i] == tenders[i].amount {
      Quota(total, unit, w, i);
      var m := Modulus(unit, w);
      assert m == total;
      DivBetween(total * w[i], m, w[i]);
      DivMod(total * w[i], m);
      WeightOfWhole(tenders[i].amount, unit);
    }
    assert parts == Amounts(tenders);
  }

  /** The split succeeds exactly when the tenders cover the total and one of them is worth at least a cent. */
  lemma {:induction false} SplitSucceedsIff(total: int, tenders: seq<Tender>, unit: nat)
    requires unit > 0
    ensures SplitTotal(total, tenders, unit).Ok?
       <==> Sum(Amounts(tenders)) >= total && exists i :: 0 <= i < |tenders| && tenders[i].amount >= unit
  {
    var w := Weights(tenders, unit);
    SumNonNegative(w);
    if exists i :: 0 <= i < |tenders| && tenders[i].amount >= unit {
      var i :| 0 <= i < |tenders| && tenders[i].amount >= unit;
      DivLess(tenders[i].amount, unit, 1);
      assert w[i] > 0;
    } else {
      forall i | 0 <= i < |w| ensures w[i] == 0 {
        if tenders[i].amount >= 0 {
          DivLess(tenders[i].amount, unit, 1);
          DivLess(tenders[i].amount, unit, 0);
        }
      }
      SumZeroes(w);
    }
  }
}
