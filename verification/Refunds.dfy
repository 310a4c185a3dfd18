/** Several returns of one sale, and the returns and exchanges of rung sales end to end. */
module Refunds {
  import opened Sums
  import opened Wrappers
  import opened Money
  import opened LargestRemainder
  import opened Tenders
  import opened Returns
  import opened Register

  /** What a request claims: every line when it names none. */
  function Claimed(record: SaleRecord, requested: seq<ReturnLine>): int {
    if requested == [] then record.subtotal else ReturnValue(record.lines, requested)
  }

  /** A sale that can be returned in whole cents. */
  ghost predicate Returnable(record: SaleRecord, unit: nat) {
    && unit > 0 && Settled(record, unit) && record.subtotal > 0 && record.total > 0
    && forall i :: 0 <= i < |record.lines| ==> record.lines[i].unitPrice % unit == 0
  }

  // ----- One return, from the request to the cents per tender -----

  /** The refund in cents of a claim; a claim below nothing counts as nothing. */
  function RefundCents(record: SaleRecord, claim: int, unit: nat): int
    requires unit > 0 && record.subtotal / unit > 0
  {
    RoundedHalfUp(record.total / unit, (if claim > 0 then claim else 0) / unit, record.subtotal / unit)
  }

  /** What one tender gets of a claim, in cents. */
  ghost function TenderCents(record: SaleRecord, claim: int, unit: nat, i: nat): int
    requires unit > 0 && record.subtotal / unit > 0 && i < |record.tenders| && Sum(Weights(record.tenders, unit)) > 0
  {
    FairShare(unit * RefundCents(record, claim, unit), unit, Weights(record.tenders, unit), i)
  }

  lemma {:induction false} WholeProduct(a: int, b: int, unit: nat)
    requires unit > 0 && a % unit == 0
    ensures (a * b) % unit == 0
  {
    DivMod(a, unit);
    assert a * b == unit * ((a / unit) * b);
    MultipleOf(unit, (a / unit) * b);
  }

  lemma {:induction false} WholePrice(lines: seq<LineItem>, item: nat, unit: nat)
    requires unit > 0 && forall i :: 0 <= i < |lines| ==> lines[i].unitPrice % unit == 0
    ensures MatchedPrice(lines, item) % unit == 0
  {
    if lines != [] {
      WholePrice(lines[1..], item, unit);
      SumOfMultiples(lines[0].unitPrice, MatchedPrice(lines[1..], item), unit);
    }
  }

  lemma {:induction false} WholeValue(lines: seq<LineItem>, requested: seq<ReturnLine>, unit: nat)
    requires unit > 0 && forall i :: 0 <= i < |lines| ==> lines[i].unitPrice % unit == 0
    ensures ReturnValue(lines, requested) % unit == 0
  {
    if requested != [] {
      var price, rest := MatchedPrice(lines, requested[0].item), ReturnValue(lines, requested[1..]);
      WholeValue(lines, requested[1..], unit);
      WholePrice(lines, requested[0].item, unit);
      WholeProduct(price, requested[0].qty, unit);
      SumOfMultiples(price * requested[0].qty, rest, unit);
    }
  }

  lemma {:induction false} WholeClaim(record: SaleRecord, requested: seq<ReturnLine>, unit: nat)
    requires Returnable(record, unit)
    ensures ReturnValue(record.lines, requested) % unit == 0 && Claimed(record, requested) % unit == 0
  {
    WholeValue(record.lines, requested, unit);
  }

  lemma {:induction false} InCents(record: SaleRecord, unit: nat)
    requires Returnable(record, unit)
    ensures record.total == unit * (record.total / unit) && record.subtotal == unit * (record.subtotal / unit)
    ensures record.total / unit > 0 && record.subtotal / unit > 0
    ensures Sum(Weights(record.tenders, unit)) == record.total / unit
  {
    DivMod(record.total, unit);
    DivMod(record.subtotal, unit);
    SignOfFactor(unit, record.total / unit);
    SignOfFactor(unit, record.subtotal / unit);
    WeightsSum(record.tenders, unit);
    CancelWeights(unit, Sum(Weights(record.tenders, unit)), record.total / unit);
  }

  lemma {:induction false} CancelWeights(unit: nat, a: int, b: int)
    requires unit > 0 && unit * a == unit * b
    ensures a == b
  {
    MulStep(unit, a, b);
    MulStep(unit, b, a);
  }

  /** A claim below nothing is refunded like one of nothing. */
  lemma {:induction false} NegativeClaim(record: SaleRecord, claim: int, unit: nat)
    requires Returnable(record, unit) && claim < 0
    ensures ComputeRefund(record, claim, unit) == ComputeRefund(record, 0, unit)
  {
    DivLess(0, unit, 1);
    DivLess(0, unit, 0);
    assert RefundRatios(record, claim, unit) == RefundRatios(record, 0, unit);
  }

  /**
   * A claim of at most the subtotal is refunded `total * claim / subtotal`, rounded half up to the
   * cent, and each tender gets its fair share of that; a larger claim is refused.
   */
  lemma {:induction false} RefundOfClaim(record: SaleRecord, claim: int, unit: nat)
    requires Returnable(record, unit) && claim % unit == 0 && claim <= record.subtotal
    ensures record.subtotal / unit > 0 && Sum(Weights(record.tenders, unit)) > 0
    ensures ComputeRefund(record, claim, unit).Ok?
    ensures var split := ComputeRefund(record, claim, unit).value;
      && |split.tenders| == |record.tenders|
      && split.refundAmount == unit * RefundCents(record, claim, unit)
      && 0 <= split.refundAmount <= record.total && Sum(Amounts(split.tenders)) == split.refundAmount
      && forall i :: 0 <= i < |record.tenders| ==>
           && split.tenders[i].kind == record.tenders[i].kind
           && 0 <= split.tenders[i].amount <= record.tenders[i].amount
           && split.tenders[i].amount == unit * TenderCents(record, claim, unit, i)
  {
    InCents(record, unit);
    var counted := if claim > 0 then claim else 0;
    if claim < 0 { NegativeClaim(record, claim, unit); }
    DivLess(0, unit, 1);
    DivLess(0, unit, 0);
    RefundComposition(record, counted, unit);
    var split := ComputeRefund(record, counted, unit).value;
    var w := Weights(record.tenders, unit);
    forall i | 0 <= i < |record.tenders| ensures split.tenders[i].amount == unit * TenderCents(record, claim, unit, i) {
      UnitsAreFair(split.refundAmount, unit, w, i);
    }
  }

  lemma {:induction false} AmountOfClaim(record: SaleRecord, claim: int, unit: nat)
    requires Returnable(record, unit) && claim % unit == 0 && claim <= record.subtotal && record.subtotal / unit > 0
    ensures ComputeRefund(record, claim, unit).Ok?
    ensures ComputeRefund(record, claim, unit).value.refundAmount == Times(unit, RefundCents(record, claim, unit))
  {
    RefundOfClaim(record, claim, unit);
  }

  lemma {:induction false} ShareOfClaim(record: SaleRecord, claim: int, unit: nat, i: nat)
    requires Returnable(record, unit) && claim % unit == 0 && claim <= record.subtotal && record.subtotal / unit > 0
    requires i < |record.tenders| && Sum(Weights(record.tenders, unit)) > 0
    ensures ComputeRefund(record, claim, unit).Ok?
        && |ComputeRefund(record, claim, unit).value.tenders| == |record.tenders|
    ensures ComputeRefund(record, claim, unit).value.tenders[i].amount
        == Times(unit, TenderCents(record, claim, unit, i))
  {
    RefundOfClaim(record, claim, unit);
  }

  // ----- Several returns of one sale -----

  /**
   * The successful ones of a series of returns of one sale. A return leaves the registry as it
   * was, so each is computed from the same record.
   */
  function Successes(sales: map<nat, SaleRecord>, txn: nat, requests: seq<seq<ReturnLine>>, unit: nat): seq<RefundSplit>
    requires unit > 0
  {
    if requests == [] then []
    else
      var n := |requests| - 1;
      Successes(sales, txn, requests[..n], unit)
      + match ReturnResult(sales, txn, requests[n], unit) case Ok(split) => [split] case Err(_) => []
  }

  /** What tender `i` was refunded in all. */
  function RefundedTo(splits: seq<RefundSplit>, i: nat): int {
    if splits == [] then 0
    else
      var last := splits[|splits| - 1];
      RefundedTo(splits[..|splits| - 1], i) + if i < |last.tenders| then last.tenders[i].amount else 0
  }

  function RefundedInAll(splits: seq<RefundSplit>): int {
    if splits == [] then 0 else RefundedInAll(splits[..|splits| - 1]) + splits[|splits| - 1].refundAmount
  }

  /** No tender was refunded more, over all the returns, than it paid. */
  ghost predicate WithinPaid(record: SaleRecord, splits: seq<RefundSplit>) {
    forall i :: 0 <= i < |record.tenders| ==> RefundedTo(splits, i) <= record.tenders[i].amount
  }

  predicate Accepted(record: SaleRecord, requested: seq<ReturnLine>) { Claimed(record, requested) <= record.subtotal }

  /** The cents the accepted requests are due in all, computed from their claims. */
  function CentsDue(record: SaleRecord, requests: seq<seq<ReturnLine>>, unit: nat): int
    requires unit > 0 && record.subtotal / unit > 0
  {
    if requests == [] then 0
    else
      var n := |requests| - 1;
      CentsDue(record, requests[..n], unit)
          + if Accepted(record, requests[n]) then RefundCents(record, Claimed(record, requests[n]), unit) else 0
  }

  ghost function TenderCentsDue(record: SaleRecord, requests: seq<seq<ReturnLine>>, unit: nat, i: nat): int
    requires unit > 0 && record.subtotal / unit > 0 && i < |record.tenders| && Sum(Weights(record.tenders, unit)) > 0
  {
    if requests == [] then 0
    else
      var n := |requests| - 1;
      TenderCentsDue(record, requests[..n], unit, i)
          + if Accepted(record, requests[n]) then TenderCents(record, Claimed(record, requests[n]), unit, i) else 0
  }

  /** A return succeeds exactly when it claims at most the subtotal. */
  lemma {:induction false} ReturnAcceptedIff(sales: map<nat, SaleRecord>, txn: nat, requested: seq<ReturnLine>,
      unit: nat)
    requires txn in sales && Returnable(sales[txn], unit)
    ensures ComputeRefund(sales[txn], Claimed(sales[txn], requested), unit).Ok? <==> Accepted(sales[txn], requested)
    ensures ReturnResult(sales, txn, requested, unit)
         == match ComputeRefund(sales[txn], Claimed(sales[txn], requested), unit)
            case Ok(split) => Ok(split)
            case Err(_) => Err(Return(OverReturn))
  {
    WholeClaim(sales[txn], requested, unit);
    if Accepted(sales[txn], requested) { RefundOfClaim(sales[txn], Claimed(sales[txn], requested), unit); }
  }

  /** Why a return is refused before its refund is computed, and for what value it is computed. */
  lemma {:induction false} ReturnRefusals(sales: map<nat, SaleRecord>, txn: nat, requested: seq<ReturnLine>, unit: nat)
    requires unit > 0
    ensures var r := ReturnResult(sales, txn, requested, unit);
      && (r == Err(NoSuchSale) <==> txn !in sales)
      && (txn in sales && sales[txn].status != Captured ==> r == Err(Return(NotReturnable(sales[txn].status))))
      && (txn in sales && sales[txn].status == Captured ==>
            var sale := sales[txn];
            var claim := if requested == [] then sale.subtotal else Sum(RequestValues(sale.lines, requested));
            if claim > sale.subtotal then r == Err(Return(OverReturn))
            else match ComputeRefund(sale, claim, unit)
                 case Ok(split) => r == Ok(split)
                 case Err(e) => r == Err(Return(e)))
  {
    if txn in sales { MerchandiseClaimed(sales[txn], requested); }
  }

  lemma {:induction false} RefundedSnoc(splits: seq<RefundSplit>, more: RefundSplit, i: nat)
    ensures RefundedTo(splits + [more], i)
        == RefundedTo(splits, i) + if i < |more.tenders| then more.tenders[i].amount else 0
    ensures RefundedInAll(splits + [more]) == RefundedInAll(splits) + more.refundAmount
  {
    assert (splits + [more])[..|splits|] == splits;
  }

  lemma {:induction false} LastSuccess(sales: map<nat, SaleRecord>, txn: nat, requests: seq<seq<ReturnLine>>, unit: nat)
    requires txn in sales && Returnable(sales[txn], unit) && requests != []
    ensures var last := requests[|requests| - 1];
      var before, refund :=
          Successes(sales, txn, requests[..|requests| - 1], unit),
          ComputeRefund(sales[txn], Claimed(sales[txn], last), unit);
      && (refund.Ok? <==> Accepted(sales[txn], last))
      && Successes(sales, txn, requests, unit) == before + if refund.Ok? then [refund.value] else []
  {
    ReturnAcceptedIff(sales, txn, requests[|requests| - 1], unit);
  }

  /** The last of a series adds what its claim is due. */
  lemma {:induction false} LastTo(sales: map<nat, SaleRecord>, txn: nat, requests: seq<seq<ReturnLine>>, unit: nat,
      i: nat) returns (amount: int)
    requires txn in sales && Returnable(sales[txn], unit) && i < |sales[txn].tenders| && requests != []
    requires sales[txn].subtotal / unit > 0 && Sum(Weights(sales[txn].tenders, unit)) > 0
    ensures var last := requests[|requests| - 1];
      amount == if Accepted(sales[txn], last)
          then Times(unit, TenderCents(sales[txn], Claimed(sales[txn], last), unit, i)) else 0
    ensures RefundedTo(Successes(sales, txn, requests, unit), i)
        == RefundedTo(Successes(sales, txn, requests[..|requests| - 1], unit), i) + amount
  {
    var last, record := requests[|requests| - 1], sales[txn];
    var before := Successes(sales, txn, requests[..|requests| - 1], unit);
    LastSuccess(sales, txn, requests, unit);
    if Accepted(record, last) {
      WholeClaim(record, last, unit);
      ShareOfClaim(record, Claimed(record, last), unit, i);
      amount := ComputeRefund(record, Claimed(record, last), unit).value.tenders[i].amount;
      RefundedSnoc(before, ComputeRefund(record, Claimed(record, last), unit).value, i);
    } else {
      amount := 0;
      assert before + [] == before;
    }
  }

  lemma {:induction false} LastAmount(sales: map<nat, SaleRecord>, txn: nat, requests: seq<seq<ReturnLine>>, unit: nat)
    returns (amount: int)
    requires txn in sales && Returnable(sales[txn], unit) && requests != [] && sales[txn].subtotal / unit > 0
    ensures var last := requests[|requests| - 1];
      amount == if Accepted(sales[txn], last)
          then Times(unit, RefundCents(sales[txn], Claimed(sales[txn], last), unit)) else 0
    ensures RefundedInAll(Successes(sales, txn, requests, unit))
        == RefundedInAll(Successes(sales, txn, requests[..|requests| - 1], unit)) + amount
  {
    var last, record := requests[|requests| - 1], sales[txn];
    var before := Successes(sales, txn, requests[..|requests| - 1], unit);
    LastSuccess(sales, txn, requests, unit);
    if Accepted(record, last) {
      WholeClaim(record, last, unit);
      AmountOfClaim(record, Claimed(record, last), unit);
      amount := ComputeRefund(record, Claimed(record, last), unit).value.refundAmount;
      RefundedSnoc(before, ComputeRefund(record, Claimed(record, last), unit).value, 0);
    } else {
      amount := 0;
      assert before + [] == before;
    }
  }

  lemma {:induction false} DueStep(record: SaleRecord, requests: seq<seq<ReturnLine>>, unit: nat, i: nat)
    requires unit > 0 && record.subtotal / unit > 0 && i < |record.tenders| && Sum(Weights(record.tenders, unit)) > 0
        && requests != []
    ensures var last := requests[|requests| - 1];
      Times(unit, TenderCentsDue(record, requests, unit, i))
        == Times(unit, TenderCentsDue(record, requests[..|requests| - 1], unit, i))
           + if Accepted(record, last) then Times(unit, TenderCents(record, Claimed(record, last), unit, i)) else 0
  {
    var last := requests[|requests| - 1];
    Distribute(unit, TenderCentsDue(record, requests[..|requests| - 1], unit, i),
        TenderCents(record, Claimed(record, last), unit, i));
  }

  /** What a series of returns refunds to a tender, computed from the claims. */
  lemma {:induction false} RefundedIsDue(sales: map<nat, SaleRecord>, txn: nat, requests: seq<seq<ReturnLine>>,
      unit: nat, i: nat)
    requires txn in sales && Returnable(sales[txn], unit) && i < |sales[txn].tenders|
    requires sales[txn].subtotal / unit > 0 && Sum(Weights(sales[txn].tenders, unit)) > 0
    ensures RefundedTo(Successes(sales, txn, requests, unit), i)
        == Times(unit, TenderCentsDue(sales[txn], requests, unit, i))
  {
    if requests != [] {
      RefundedIsDue(sales, txn, requests[..|requests| - 1], unit, i);
      var amount := LastTo(sales, txn, requests, unit, i);
      DueStep(sales[txn], requests, unit, i);
    }
  }

  lemma {:induction false} AllDueStep(record: SaleRecord, requests: seq<seq<ReturnLine>>, unit: nat)
    requires unit > 0 && record.subtotal / unit > 0 && requests != []
    ensures var last := requests[|requests| - 1];
      Times(unit, CentsDue(record, requests, unit))
        == Times(unit, CentsDue(record, requests[..|requests| - 1], unit))
           + if Accepted(record, last) then Times(unit, RefundCents(record, Claimed(record, last), unit)) else 0
  {
    var last := requests[|requests| - 1];
    Distribute(unit, CentsDue(record, requests[..|requests| - 1], unit),
        RefundCents(record, Claimed(record, last), unit));
  }

  /** And in all. */
  lemma {:induction false} AllRefundedIsDue(sales: map<nat, SaleRecord>, txn: nat, requests: seq<seq<ReturnLine>>,
      unit: nat)
    requires txn in sales && Returnable(sales[txn], unit) && sales[txn].subtotal / unit > 0
    ensures RefundedInAll(Successes(sales, txn, requests, unit)) == Times(unit, CentsDue(sales[txn], requests, unit))
  {
    if requests != [] {
      AllRefundedIsDue(sales, txn, requests[..|requests| - 1], unit);
      var amount := LastAmount(sales, txn, requests, unit);
      AllDueStep(sales[txn], requests, unit);
    }
  }

  lemma {:induction false} CompareInUnits(unit: nat, a: int, b: int)
    requires unit > 0
    ensures Times(unit, a) <= Times(unit, b) <==> a <= b
  {
    MulStep(unit, a, b);
    MulStep(unit, b, a);
  }

  /**
   * Over any series of returns of one sale, no tender is refunded more than it paid if and only if
   * for each tender the cents due to it from the accepted claims are at most the cents it paid.
   */
  lemma {:induction false} WithinPaidIff(sales: map<nat, SaleRecord>, txn: nat, requests: seq<seq<ReturnLine>>,
      unit: nat)
    requires txn in sales && Returnable(sales[txn], unit)
    ensures sales[txn].subtotal / unit > 0 && Sum(Weights(sales[txn].tenders, unit)) > 0
    ensures WithinPaid(sales[txn], Successes(sales, txn, requests, unit))
       <==> forall i ::
            0 <= i < |sales[txn].tenders|
            ==> TenderCentsDue(sales[txn], requests, unit, i) <= Weights(sales[txn].tenders, unit)[i]
  {
    var record := sales[txn];
    InCents(record, unit);
    forall i | 0 <= i < |record.tenders|
      ensures RefundedTo(Successes(sales, txn, requests, unit), i) <= record.tenders[i].amount
         <==> TenderCentsDue(record, requests, unit, i) <= Weights(record.tenders, unit)[i]
    {
      RefundedIsDue(sales, txn, requests, unit, i);
      assert record.tenders[i].amount == Times(unit, Weights(record.tenders, unit)[i]) by {
        WeightOfWhole(record.tenders[i].amount, unit);
      }
      CompareInUnits(unit, TenderCentsDue(record, requests, unit, i), Weights(record.tenders, unit)[i]);
    }
  }

  /** All the refunds together are at most the total if and only if the cents due are. */
  lemma {:induction false} TotalWithinIff(sales: map<nat, SaleRecord>, txn: nat, requests: seq<seq<ReturnLine>>,
      unit: nat)
    requires txn in sales && Returnable(sales[txn], unit)
    ensures sales[txn].subtotal / unit > 0
    ensures RefundedInAll(Successes(sales, txn, requests, unit)) <= sales[txn].total
        <==> CentsDue(sales[txn], requests, unit) <= sales[txn].total / unit
  {
    var record := sales[txn];
    InCents(record, unit);
    AllRefundedIsDue(sales, txn, requests, unit);
    CompareInUnits(unit, CentsDue(record, requests, unit), record.total / unit);
  }

  // ----- Full returns -----

  lemma {:induction false} FullRefunds(sales: map<nat, SaleRecord>, txn: nat, requests: seq<seq<ReturnLine>>, unit: nat,
      i: nat)
    requires txn in sales && Returnable(sales[txn], unit) && i < |sales[txn].tenders|
    requires forall k :: 0 <= k < |requests| ==> Claimed(sales[txn], requests[k]) == sales[txn].subtotal
    ensures |Successes(sales, txn, requests, unit)| == |requests|
    ensures RefundedTo(Successes(sales, txn, requests, unit), i) == Times(sales[txn].tenders[i].amount, |requests|)
  {
    if requests != [] {
      var n, record := |requests| - 1, sales[txn];
      var before := Successes(sales, txn, requests[..n], unit);
      FullRefunds(sales, txn, requests[..n], unit, i);
      ReturnAcceptedIff(sales, txn, requests[n], unit);
      FullReturnIff(record, unit);
      RefundedSnoc(before, RefundSplit(record.total, record.tenders), i);
      Distribute(record.tenders[i].amount, n, 1);
    }
  }

  lemma {:induction false} SomethingPaid(record: SaleRecord, unit: nat) returns (i: nat)
    requires Returnable(record, unit)
    ensures i < |record.tenders| && record.tenders[i].amount > 0
  {
    if forall k :: 0 <= k < |record.tenders| ==> record.tenders[k].amount <= 0 {
      SumNonPositive(Amounts(record.tenders));
      assert false;
    }
    i :| 0 <= i < |record.tenders| && record.tenders[i].amount > 0;
  }

  lemma {:induction false} SumNonPositive(s: seq<int>)
    requires forall i :: 0 <= i < |s| ==> s[i] <= 0
    ensures Sum(s) <= 0
  {
    if s != [] { SumNonPositive(s[1..]); }
  }

  lemma {:induction false} TimesAtMost(a: int, n: nat)
    ensures a >= 0 && n <= 1 ==> Times(a, n) <= a
    ensures a > 0 && n > 1 ==> Times(a, n) > a
  {
    if a > 0 { MulStep(a, 1, n); }
  }

  /** Nothing marks a sale as returned: every full return succeeds, and only one of them is within what was paid. */
  lemma {:induction false} FullReturnsIff(sales: map<nat, SaleRecord>, txn: nat, requests: seq<seq<ReturnLine>>,
      unit: nat)
    requires txn in sales && Returnable(sales[txn], unit)
    requires forall k :: 0 <= k < |requests| ==> Claimed(sales[txn], requests[k]) == sales[txn].subtotal
    ensures |Successes(sales, txn, requests, unit)| == |requests|
    ensures WithinPaid(sales[txn], Successes(sales, txn, requests, unit)) <==> |requests| <= 1
  {
    var p := SomethingPaid(sales[txn], unit);
    FullRefunds(sales, txn, requests, unit, p);
    AllPaidTimes(sales[txn].tenders, Successes(sales, txn, requests, unit), |requests|, p) by {
      forall i | 0 <= i < |sales[txn].tenders|
        ensures RefundedTo(Successes(sales, txn, requests, unit), i) == Times(sales[txn].tenders[i].amount, |requests|)
      {
        FullRefunds(sales, txn, requests, unit, i);
      }
    }
  }

  lemma {:induction false} AllPaidTimes(tenders: seq<Tender>, splits: seq<RefundSplit>, n: nat, p: nat)
    requires p < |tenders| && tenders[p].amount > 0 && forall i :: 0 <= i < |tenders| ==> tenders[i].amount >= 0
    requires forall i :: 0 <= i < |tenders| ==> RefundedTo(splits, i) == Times(tenders[i].amount, n)
    ensures (forall i :: 0 <= i < |tenders| ==> RefundedTo(splits, i) <= tenders[i].amount) <==> n <= 1
  {
    forall i | 0 <= i < |tenders| ensures n <= 1 ==> RefundedTo(splits, i) <= tenders[i].amount {
      TimesAtMost(tenders[i].amount, n);
    }
    TimesAtMost(tenders[p].amount, n);
  }

  // ----- Returns without rounding -----

  /** Every tender's proportional share of the claim is a number of cents. */
  ghost predicate SharesInCents(record: SaleRecord, claim: int, unit: nat)
    requires unit > 0 && record.subtotal / unit > 0
  {
    claim >= 0
        && forall i ::
            0 <= i < |record.tenders|
            ==> ((claim / unit) * Weights(record.tenders, unit)[i]) % (record.subtotal / unit) == 0
  }

  /** Then each tender gets exactly its share. */
  lemma {:induction false} ExactShare(record: SaleRecord, claim: int, unit: nat, i: nat)
    requires Returnable(record, unit) && i < |record.tenders|
    requires record.subtotal / unit > 0 && Sum(Weights(record.tenders, unit)) > 0 && SharesInCents(record, claim, unit)
    ensures Times(record.subtotal / unit, TenderCents(record, claim, unit, i))
        == Times(claim / unit, Weights(record.tenders, unit)[i])
  {
    InCents(record, unit);
    var c, s, t, w := claim / unit, record.subtotal / unit, record.total / unit, Weights(record.tenders, unit);
    var q := seq(|w|, k requires 0 <= k < |w| => (c * w[k]) / s);
    var scaled := seq(|w|, k requires 0 <= k < |w| => c * w[k]);
    forall k | 0 <= k < |w| ensures scaled[k] == s * q[k] { DivMod(c * w[k], s); }
    SumScaled(c, w, scaled);
    SumScaled(s, q, scaled);
    DivLess(claim, unit, 0);
    ExactRefund(t, c, s, Sum(q));
    ExactPart(unit, t, c, s, Sum(q), w[i], q[i]);
    UnitsAreFair(unit * Sum(q), unit, w, i);
    ProductNonNegative(unit, RoundedHalfUp(t, c, s));
    Quota(unit * Sum(q), unit, w, i);
  }

  lemma {:induction false} ExactRefund(t: int, c: int, s: int, q: int)
    requires s > 0 && c >= 0 && t > 0 && c * t == s * q
    ensures RoundedHalfUp(t, c, s) == q && q >= 0
  {
    assert t * c == c * t;
    HalfUp(t * c, s);
    DivBetween(t * c, s, q);
    DivMod(t * c, s);
    ProductNonNegative(c, t);
    MulStep(s, q, 0);
  }

  /** A tender's share of a refund of `r` cents is `part`, and nothing remains. */
  lemma {:induction false} ExactPart(unit: nat, t: int, c: int, s: int, r: int, w: int, part: int)
    requires unit > 0 && s > 0 && t > 0 && c * t == s * r && c * w == s * part
    ensures (unit * r * w) / (unit * t) == part && (unit * r * w) % (unit * t) == 0 && unit * t > 0
  {
    assert s * (r * w) == (c * t) * w;
    assert s * (t * part) == t * (c * w);
    assert (c * t) * w == t * (c * w);
    CancelFactor(s, r * w, t * part);
    MulPositive(unit, t);
    assert unit * r * w == (unit * t) * part;
    DivBetween(unit * r * w, unit * t, part);
    DivMod(unit * r * w, unit * t);
  }

  lemma {:induction false} CancelFactor(s: int, a: int, b: int)
    requires s > 0 && s * a == s * b
    ensures a == b
  {
    MulStep(s, a, b);
    MulStep(s, b, a);
  }

  /** What the accepted requests claim in all. */
  function ClaimedInAll(record: SaleRecord, requests: seq<seq<ReturnLine>>, unit: nat): int
    requires unit > 0
  {
    if requests == [] then 0
    else
      var n := |requests| - 1;
      ClaimedInAll(record, requests[..n], unit)
          + if Accepted(record, requests[n]) then Claimed(record, requests[n]) / unit else 0
  }

  lemma {:induction false} ExactDue(record: SaleRecord, requests: seq<seq<ReturnLine>>, unit: nat, i: nat)
    requires Returnable(record, unit) && i < |record.tenders|
    requires record.subtotal / unit > 0 && Sum(Weights(record.tenders, unit)) > 0
    requires forall k ::
        0 <= k < |requests| && Accepted(record, requests[k])
        ==> SharesInCents(record, Claimed(record, requests[k]), unit)
    ensures Times(record.subtotal / unit, TenderCentsDue(record, requests, unit, i))
         == Times(ClaimedInAll(record, requests, unit), Weights(record.tenders, unit)[i])
    ensures ClaimedInAll(record, requests, unit) >= 0
  {
    if requests != [] {
      var n := |requests| - 1;
      ExactDue(record, requests[..n], unit, i);
      if Accepted(record, requests[n]) {
        var claim := Claimed(record, requests[n]);
        ExactShare(record, claim, unit, i);
        DivLess(claim, unit, 0);
        Added(record.subtotal / unit, TenderCentsDue(record, requests[..n], unit, i),
            TenderCents(record, claim, unit, i));
        Added(Weights(record.tenders, unit)[i], ClaimedInAll(record, requests[..n], unit), claim / unit);
      }
    }
  }

  lemma {:induction false} Added(a: int, b: int, c: int)
    ensures Times(a, b + c) == Times(a, b) + Times(a, c) && Times(b + c, a) == Times(b, a) + Times(c, a)
  {
  }

  lemma {:induction false} DueWithin(s: int, due: int, claimed: int, w: int)
    requires s > 0 && w >= 0 && Times(s, due) == Times(claimed, w)
    ensures claimed <= s ==> due <= w
    ensures w > 0 && claimed > s ==> due > w
  {
    if claimed <= s {
      AtMostScaled(claimed, s, w);
      CompareInUnits(s, due, w);
    } else if w > 0 {
      MulStep(w, s, claimed);
      assert Times(s, w) == w * s && Times(claimed, w) == w * claimed;
      CompareInUnits(s, due, w);
    }
  }

  lemma {:induction false} AtMostScaled(a: int, b: int, w: int)
    requires a <= b && w >= 0
    ensures Times(a, w) <= Times(b, w)
  {
  }

  /**
   * Returns whose shares come out in whole cents stay within what each tender paid if and only if
   * their claims together are at most what was bought. (In cents, as all claims are.)
   */
  lemma {:induction false} ExactReturnsIff(sales: map<nat, SaleRecord>, txn: nat, requests: seq<seq<ReturnLine>>,
      unit: nat)
    requires txn in sales && Returnable(sales[txn], unit) && sales[txn].subtotal / unit > 0
    requires forall k ::
        0 <= k < |requests| && Accepted(sales[txn], requests[k])
        ==> SharesInCents(sales[txn], Claimed(sales[txn], requests[k]), unit)
    ensures WithinPaid(sales[txn], Successes(sales, txn, requests, unit))
       <==> ClaimedInAll(sales[txn], requests, unit) <= sales[txn].subtotal / unit
  {
    var record := sales[txn];
    var w := Weights(record.tenders, unit);
    InCents(record, unit);
    WithinPaidIff(sales, txn, requests, unit);
    var claimed, s := ClaimedInAll(record, requests, unit), record.subtotal / unit;
    forall i | 0 <= i < |w|
      ensures claimed <= s ==> TenderCentsDue(record, requests, unit, i) <= w[i]
      ensures w[i] > 0 && claimed > s ==> TenderCentsDue(record, requests, unit, i) > w[i]
    {
      ExactDue(record, requests, unit, i);
      DueWithin(s, TenderCentsDue(record, requests, unit, i), claimed, w[i]);
    }
    var p := SomethingPaid(record, unit);
    WeightOfWhole(record.tenders[p].amount, unit);
    assert w[p] > 0;
  }

  // ----- Rung sales -----

  /** A rung sale can be returned in whole cents if and only if it used whole cents of credit. */
  lemma {:induction false} RungReturnableIff(lines: seq<SaleLine>, tenders: seq<SaleTender>, points: Option<int>,
      pluginCents: Option<int>, loyaltyRedeem: int, exchangeCredit: int, unit: nat)
    requires unit > 0
    requires RingResult(lines, tenders, points, pluginCents, loyaltyRedeem, exchangeCredit, unit).Ok?
    ensures var sale := RingResult(lines, tenders, points, pluginCents, loyaltyRedeem, exchangeCredit, unit).value;
      Returnable(sale, unit)
      <==> sale.subtotal > 0 && sale.total > 0
           && WholeCredit(AppliedCredit(loyaltyRedeem, exchangeCredit, sale.total), unit)
  {
    var sale := RingResult(lines, tenders, points, pluginCents, loyaltyRedeem, exchangeCredit, unit).value;
    RungSaleSettledIff(lines, tenders, points, pluginCents, loyaltyRedeem, exchangeCredit, unit);
    forall i | 0 <= i < |lines| ensures FromMajor(lines[i].unitPrice, unit) % unit == 0 {
      MajorIsWhole(lines[i].unitPrice, 1, unit);
    }
    assert sale.lines == Lines(lines, unit);
  }

  /**
   * Ring a sale, return any lines of it: a request that claims more than the subtotal is refused,
   * and any other is refunded its share of the total, exactly, tender by tender.
   */
  lemma {:induction false} RingThenReturn(lines: seq<SaleLine>, tenders: seq<SaleTender>, points: Option<int>,
      pluginCents: Option<int>, loyaltyRedeem: int, exchangeCredit: int, unit: nat, sales: map<nat, SaleRecord>,
      txn: nat, requested: seq<ReturnLine>)
    requires unit > 0
    requires RingResult(lines, tenders, points, pluginCents, loyaltyRedeem, exchangeCredit, unit).Ok?
    requires txn in sales
        && sales[txn] == RingResult(lines, tenders, points, pluginCents, loyaltyRedeem, exchangeCredit, unit).value
    requires sales[txn].subtotal > 0 && sales[txn].total > 0
    requires WholeCredit(AppliedCredit(loyaltyRedeem, exchangeCredit, sales[txn].total), unit)
    ensures Returnable(sales[txn], unit) && sales[txn].subtotal / unit > 0 && Sum(Weights(sales[txn].tenders, unit)) > 0
    ensures ReturnResult(sales, txn, requested, unit).Ok? <==> Accepted(sales[txn], requested)
    ensures Accepted(sales[txn], requested) ==>
      var split, claim := ReturnResult(sales, txn, requested, unit).value, Claimed(sales[txn], requested);
      && split.refundAmount == unit * RefundCents(sales[txn], claim, unit) == Sum(Amounts(split.tenders))
      && |split.tenders| == |sales[txn].tenders|
      && forall i ::
          0 <= i < |sales[txn].tenders| ==> split.tenders[i].amount == unit * TenderCents(sales[txn], claim, unit, i)
    ensures !Accepted(sales[txn], requested) ==> ReturnResult(sales, txn, requested, unit) == Err(Return(OverReturn))
  {
    RungReturnableIff(lines, tenders, points, pluginCents, loyaltyRedeem, exchangeCredit, unit);
    InCents(sales[txn], unit);
    ReturnAcceptedIff(sales, txn, requested, unit);
    WholeClaim(sales[txn], requested, unit);
    if Accepted(sales[txn], requested) { RefundOfClaim(sales[txn], Claimed(sales[txn], requested), unit); }
  }

  /** The refund of a claim, before it is split over the tenders, whatever those are. */
  lemma {:induction false} RefundShare(record: SaleRecord, claim: int, unit: nat)
    requires unit > 0 && record.subtotal > 0 && record.total > 0 && claim <= record.subtotal
    requires record.subtotal % unit == 0 && record.total % unit == 0
    ensures record.subtotal / unit > 0
    ensures AllocateResult(record.total, unit, RefundRatios(record, claim, unit)).Ok?
    ensures AllocateResult(record.total, unit, RefundRatios(record, claim, unit)).value[0]
         == Times(unit, RefundCents(record, claim, unit))
  {
    var counted := if claim > 0 then claim else 0;
    var t, r, s := record.total / unit, counted / unit, record.subtotal / unit;
    DivMod(record.total, unit);
    DivMod(record.subtotal, unit);
    SignOfFactor(unit, s);
    SignOfFactor(unit, t);
    DivLess(0, unit, 0);
    DivMonotone(0, counted, unit);
    DivMonotone(counted, record.subtotal, unit);
    TwoWaySplit(t, unit, r, s - r);
    assert RefundRatios(record, claim, unit) == [r, s - r];
  }

  /**
   * Any sale that was rung, also with a fraction of a cent of credit: a return of it succeeds if and
   * only if it claims at most the subtotal and the recorded tenders cover the refund, one of them
   * being worth a cent.
   */
  lemma {:induction false} RungReturnSucceedsIff(lines: seq<SaleLine>, tenders: seq<SaleTender>, points: Option<int>,
      pluginCents: Option<int>, loyaltyRedeem: int, exchangeCredit: int, unit: nat, sales: map<nat, SaleRecord>,
      txn: nat, requested: seq<ReturnLine>)
    requires unit > 0
    requires RingResult(lines, tenders, points, pluginCents, loyaltyRedeem, exchangeCredit, unit).Ok?
    requires txn in sales
        && sales[txn] == RingResult(lines, tenders, points, pluginCents, loyaltyRedeem, exchangeCredit, unit).value
    requires sales[txn].subtotal > 0 && sales[txn].total > 0
    ensures sales[txn].subtotal / unit > 0
    ensures ReturnResult(sales, txn, requested, unit).Ok?
       <==> && Accepted(sales[txn], requested)
            && unit * RefundCents(sales[txn], Claimed(sales[txn], requested), unit) <= Sum(Amounts(sales[txn].tenders))
            && exists i :: 0 <= i < |sales[txn].tenders| && sales[txn].tenders[i].amount >= unit
  {
    LinesWhole(lines, unit);
    TotalWhole(lines, pluginCents, unit);
    AnyReturnSucceedsIff(sales, txn, requested, unit);
  }

  lemma {:induction false} AnyReturnSucceedsIff(sales: map<nat, SaleRecord>, txn: nat, requested: seq<ReturnLine>,
      unit: nat)
    requires unit > 0 && txn in sales && sales[txn].status == Captured
    requires sales[txn].subtotal > 0 && sales[txn].total > 0
    requires sales[txn].subtotal % unit == 0 && sales[txn].total % unit == 0
    ensures sales[txn].subtotal / unit > 0
    ensures ReturnResult(sales, txn, requested, unit).Ok?
       <==> && Accepted(sales[txn], requested)
            && unit * RefundCents(sales[txn], Claimed(sales[txn], requested), unit) <= Sum(Amounts(sales[txn].tenders))
            && exists i :: 0 <= i < |sales[txn].tenders| && sales[txn].tenders[i].amount >= unit
  {
    var record, claim := sales[txn], Claimed(sales[txn], requested);
    RefundShare(record, 0, unit);
    if Accepted(record, requested) {
      RefundShare(record, claim, unit);
      SplitSucceedsIff(Times(unit, RefundCents(record, claim, unit)), record.tenders, unit);
    }
  }

  /** One item for a dollar, paid in cash, with no fraction of a cent in use. */
  function DollarSale(): Result<SaleRecord, PosError> {
    RingResult([SaleLine(1, 1, 1, 0)], [SaleTender(Cash, 1)], None, None, 0, 0, 1)
  }

  lemma {:induction false} DollarSaleRings()
    ensures DollarSale() == Ok(DollarRecord())
  {
    var lines, offered := Lines([SaleLine(1, 1, 1, 0)], 1), Offered([SaleTender(Cash, 1)], 1);
    assert lines == [LineItem(1, 1, 100, 0)] && lines[1..] == [];
    assert Subtotal(lines) == 100 && TaxTotal(lines) == 0;
    assert offered == [Tender(Cash, 100)];
    DollarSettles(offered);
  }

  lemma {:induction false} DollarSettles(offered: seq<Tender>)
    requires offered == [Tender(Cash, 100)]
    ensures SettleTenders(100, 100, 0, offered, 1) == Ok(offered)
  {
    assert Amounts(offered) == [100] && Sum([100]) == 100 + Sum([100][1..]);
    SplitAllReproduces(offered, 1);
    assert Zip(offered, [100]) == offered && [] + offered == offered;
  }

  function DollarRecord(): SaleRecord {
    SaleRecord(Captured, 100, 0, 0, 100, [Tender(Cash, 100)], [LineItem(1, 1, 100, 0)])
  }

  lemma {:induction false} DollarIsReturnable()
    ensures Returnable(DollarRecord(), 1) && |DollarRecord().tenders| == 1 && DollarRecord().tenders[0].amount == 100
  {
    assert Amounts(DollarRecord().tenders) == [100] && Sum([100]) == 100 + Sum([100][1..]);
  }

  lemma {:induction false} ReturnedTwice(record: SaleRecord)
    requires Returnable(record, 1) && |record.tenders| > 0
    ensures var splits := Successes(map[7 := record], 7, [[], []], 1);
      |splits| == 2 && RefundedTo(splits, 0) == 2 * record.tenders[0].amount
  {
    FullRefunds(map[7 := record], 7, [[], []], 1, 0);
  }

  /** A dollar sale paid in cash and returned in full twice refunds two dollars. */
  lemma {:induction false} DoubleRefund()
    ensures DollarSale() == Ok(DollarRecord())
    ensures var splits := Successes(map[7 := DollarRecord()], 7, [[], []], 1);
      |splits| == 2 && RefundedTo(splits, 0) == 200
  {
    DollarSaleRings();
    DollarIsReturnable();
    ReturnedTwice(DollarRecord());
  }

  /** Two of an item for a dollar each, brought down to two cents by the pricing plugin, on two tenders. */
  function PennySale(): Result<SaleRecord, PosError> {
    RingResult([SaleLine(7, 2, 1, 0)], [SaleTender(Cash, 1), SaleTender(Card, 1)], None, Some(2), 0, 0, 1)
  }

  function PennyRecord(): SaleRecord {
    SaleRecord(Captured, 200, 198, 0, 2, [Tender(Cash, 1), Tender(Card, 1)], [LineItem(7, 2, 100, 0)])
  }

  lemma {:induction false} SumOfTwo(a: int, b: int)
    ensures Sum([a, b]) == a + b
  {
    assert [a, b][1..] == [b] && [b][1..] == [];
    assert Sum([a, b]) == a + Sum([a, b][1..]) && Sum([b]) == b + Sum([b][1..]);
  }

  lemma {:induction false} PennySaleRings()
    ensures PennySale() == Ok(PennyRecord())
  {
    var lines, offered := Lines([SaleLine(7, 2, 1, 0)], 1), Offered([SaleTender(Cash, 1), SaleTender(Card, 1)], 1);
    assert lines == [LineItem(7, 2, 100, 0)] && lines[1..] == [];
    assert Subtotal(lines) == 200 && TaxTotal(lines) == 0;
    assert offered == [Tender(Cash, 100), Tender(Card, 100)];
    PennySettles(offered);
  }

  lemma {:induction false} PennySettles(offered: seq<Tender>)
    requires offered == [Tender(Cash, 100), Tender(Card, 100)]
    ensures SettleTenders(200, 2, 0, offered, 1) == Ok([Tender(Cash, 1), Tender(Card, 1)])
  {
    PennySplit(offered);
    assert [] + Zip(offered, [1, 1]) == [Tender(Cash, 1), Tender(Card, 1)];
  }

  lemma {:induction false} PennySplit(offered: seq<Tender>)
    requires offered == [Tender(Cash, 100), Tender(Card, 100)]
    ensures SplitTotal(2, offered, 1) == Ok([1, 1])
  {
    var w := Weights(offered, 1);
    SumOfTwo(100, 100);
    assert Amounts(offered) == [100, 100] && w == [100, 100] && Sum(w) == 200;
    ExactSum(2, 1, w);
    Quota(2, 1, w, 0);
    Quota(2, 1, w, 1);
    var units := Units(2, 1, w);
    assert Modulus(1, w) == 200 && units[0] == 1 && units[1] == 1;
    assert Allocation(2, 1, w) == [Times(1, units[0]), Times(1, units[1])];
  }

  lemma {:induction false} PennyIsReturnable()
    ensures Returnable(PennyRecord(), 1) && Weights(PennyRecord().tenders, 1) == [1, 1]
    ensures Claimed(PennyRecord(), [ReturnLine(7, 1)]) == 100
  {
    var record, one := PennyRecord(), [ReturnLine(7, 1)];
    SumOfTwo(1, 1);
    assert Amounts(record.tenders) == [1, 1];
    assert MatchedPrice(record.lines, 7) == 100 + MatchedPrice(record.lines[1..], 7);
    assert ReturnValue(record.lines, one) == 100 + ReturnValue(record.lines, one[1..]);
  }

  lemma {:induction false} PennyShare()
    requires Sum([1, 1]) == 2
    ensures FairShare(1, 1, [1, 1], 0) == 1
  {
    var w: seq<nat> := [1, 1];
    assert Floors(1, 2, w) == [0, 0];
    SumZeroes(Floors(1, 2, w));
    assert Ahead(1, 2, w, 0) == {};
  }

  /**
   * That sale's units returned one at a time claim the subtotal together; both cents go to the first
   * tender, which paid one.
   */
  lemma {:induction false} PennyReturns()
    ensures var requests := [[ReturnLine(7, 1)], [ReturnLine(7, 1)]];
      && PennySale() == Ok(PennyRecord()) && Returnable(PennyRecord(), 1)
      && ClaimedInAll(PennyRecord(), requests, 1) == PennyRecord().subtotal
      && !WithinPaid(PennyRecord(), Successes(map[1 := PennyRecord()], 1, requests, 1))
  {
    var requests := [[ReturnLine(7, 1)], [ReturnLine(7, 1)]];
    PennySaleRings();
    PennyIsReturnable();
    PennyDue();
    TooMuchForOne(map[1 := PennyRecord()], 1, requests, 1, 0);
  }

  lemma {:induction false} PennyDue()
    ensures var requests := [[ReturnLine(7, 1)], [ReturnLine(7, 1)]];
      && Returnable(PennyRecord(), 1) && Sum(Weights(PennyRecord().tenders, 1)) > 0
      && ClaimedInAll(PennyRecord(), requests, 1) == 200
      && TenderCentsDue(PennyRecord(), requests, 1, 0) == 2
  {
    PennyIsReturnable();
    SumOfTwo(1, 1);
    PennyShare();
    assert RefundCents(PennyRecord(), 100, 1) == 1;
    TwoOfOne(PennyRecord(), [ReturnLine(7, 1)]);
  }

  lemma {:induction false} TooMuchForOne(sales: map<nat, SaleRecord>, txn: nat, requests: seq<seq<ReturnLine>>,
      unit: nat, i: nat)
    requires txn in sales && Returnable(sales[txn], unit) && sales[txn].subtotal / unit > 0
    requires i < |sales[txn].tenders| && Sum(Weights(sales[txn].tenders, unit)) > 0
    requires TenderCentsDue(sales[txn], requests, unit, i) > Weights(sales[txn].tenders, unit)[i]
    ensures !WithinPaid(sales[txn], Successes(sales, txn, requests, unit))
  {
    WithinPaidIff(sales, txn, requests, unit);
  }

  lemma {:induction false} TwoOfOne(record: SaleRecord, one: seq<ReturnLine>)
    requires Returnable(record, 1) && |record.tenders| > 0 && Sum(Weights(record.tenders, 1)) > 0
        && Accepted(record, one)
    ensures ClaimedInAll(record, [one, one], 1) == 2 * Claimed(record, one)
    ensures TenderCentsDue(record, [one, one], 1, 0) == 2 * TenderCents(record, Claimed(record, one), 1, 0)
  {
    var none: seq<seq<ReturnLine>> := [];
    assert [one, one][..1] == [one] && [one][..0] == none;
    assert ClaimedInAll(record, [one], 1) == Claimed(record, one);
    assert TenderCentsDue(record, [one], 1, 0) == TenderCents(record, Claimed(record, one), 1, 0);
  }

  // ----- How far rounding can overrun -----

  /** How many of the requests are accepted. */
  function AcceptedCount(record: SaleRecord, requests: seq<seq<ReturnLine>>): nat {
    if requests == [] then 0
    else
      var n := |requests| - 1;
      AcceptedCount(record, requests[..n]) + if Accepted(record, requests[n]) then 1 else 0
  }

  /** The claims of the accepted requests, a claim below nothing counting as nothing. */
  function CountedClaims(record: SaleRecord, requests: seq<seq<ReturnLine>>, unit: nat): nat
    requires unit > 0
  {
    if requests == [] then 0
    else
      var n := |requests| - 1;
      var claim := Claimed(record, requests[n]);
      CountedClaims(record, requests[..n], unit)
          + if Accepted(record, requests[n]) then (if claim > 0 then claim else 0) / unit else 0
  }

  lemma {:induction false} HalfUpBound(t: int, c: int, s: int)
    requires s > 0
    ensures 2 * Times(s, RoundedHalfUp(t, c, s)) <= 2 * Times(t, c) + s
  {
    var x, r := 2 * (t * c) + s, RoundedHalfUp(t, c, s);
    DivMod(x, 2 * s);
    assert 2 * s * r == 2 * (s * r);
  }

  lemma {:induction false} CentsDueBound(record: SaleRecord, requests: seq<seq<ReturnLine>>, unit: nat)
    requires unit > 0 && record.subtotal / unit > 0
    ensures var s, t := record.subtotal / unit, record.total / unit;
      2 * Times(s, CentsDue(record, requests, unit))
      <= 2 * Times(t, CountedClaims(record, requests, unit)) + Times(s, AcceptedCount(record, requests))
  {
    if requests != [] {
      var n, s, t := |requests| - 1, record.subtotal / unit, record.total / unit;
      CentsDueBound(record, requests[..n], unit);
      if Accepted(record, requests[n]) {
        var claim := Claimed(record, requests[n]);
        var c := (if claim > 0 then claim else 0) / unit;
        HalfUpBound(t, c, s);
        Added(s, CentsDue(record, requests[..n], unit), RoundedHalfUp(t, c, s));
        Added(t, CountedClaims(record, requests[..n], unit), c);
        Added(s, AcceptedCount(record, requests[..n]), 1);
      }
    }
  }

  lemma {:induction false} OverrunInCents(s: int, t: int, due: int, claimed: int, n: int)
    requires s > 0 && t >= 0 && claimed <= s && 2 * Times(s, due) <= 2 * Times(t, claimed) + Times(s, n)
    ensures 2 * due <= 2 * t + n
  {
    AtMostScaled(claimed, s, t);
    assert Times(s, 2 * due) == 2 * Times(s, due) && Times(t, claimed) == Times(claimed, t);
    assert Times(s, 2 * t + n) == 2 * Times(s, t) + Times(s, n);
    CompareInUnits(s, 2 * due, 2 * t + n);
  }

  /** Returns that together claim at most what was bought refund at most half a cent each more than the total. */
  lemma {:induction false} OverrunBounded(sales: map<nat, SaleRecord>, txn: nat, requests: seq<seq<ReturnLine>>,
      unit: nat)
    requires txn in sales && Returnable(sales[txn], unit) && sales[txn].subtotal / unit > 0
    requires CountedClaims(sales[txn], requests, unit) <= sales[txn].subtotal / unit
    ensures 2 * RefundedInAll(Successes(sales, txn, requests, unit))
        <= 2 * sales[txn].total + Times(unit, AcceptedCount(sales[txn], requests))
  {
    var record := sales[txn];
    var due, n := CentsDue(record, requests, unit), AcceptedCount(record, requests);
    InCents(record, unit);
    AllRefundedIsDue(sales, txn, requests, unit);
    CentsDueBound(record, requests, unit);
    OverrunInCents(record.subtotal / unit, record.total / unit, due, CountedClaims(record, requests, unit), n);
    ScaleBound(unit, due, record.total / unit, n);
  }

  lemma {:induction false} ScaleBound(unit: nat, due: int, t: int, n: int)
    requires 2 * due <= 2 * t + n
    ensures 2 * Times(unit, due) <= 2 * Times(unit, t) + Times(unit, n)
  {
    AtMostScaled(2 * due, 2 * t + n, unit);
    assert Times(2 * due, unit) == 2 * Times(unit, due);
    assert Times(2 * t + n, unit) == 2 * Times(unit, t) + Times(unit, n);
  }

  // ----- Exchanges -----

  ghost predicate CoveredBy(offered: seq<Tender>, toPay: int, unit: nat) {
    Sum(Amounts(offered)) >= toPay && exists i :: 0 <= i < |offered| && offered[i].amount >= unit
  }

  /** A sale without loyalty is rung exactly when the tenders cover what the credit leaves to pay. */
  lemma {:induction false} RingsIff(lines: seq<SaleLine>, tenders: seq<SaleTender>, points: Option<int>,
      pluginCents: Option<int>, credit: int, unit: nat)
    requires unit > 0
    ensures var toPay := Total(lines, pluginCents, unit) - credit; var offered := Offered(tenders, unit);
      RingResult(lines, tenders, points, pluginCents, 0, credit, unit).Ok?
      <==> toPay <= 0 || CoveredBy(offered, toPay, unit)
  {
    SplitSucceedsIff(Total(lines, pluginCents, unit) - credit, Offered(tenders, unit), unit);
  }

  /**
   * An exchange that fails after its return was recorded: exactly when the return is accepted and
   * what the credit leaves to pay is not covered by the offered tenders, or none of them is worth
   * a cent. Otherwise it records both or nothing.
   */
  lemma {:induction false} HalfExchangedIff(sales: map<nat, SaleRecord>, original: nat, requested: seq<ReturnLine>,
      lines: seq<SaleLine>, tenders: seq<SaleTender>, points: Option<int>, pluginCents: Option<int>, unit: nat)
    requires original in sales && Returnable(sales[original], unit) && sales[original].subtotal / unit > 0
    ensures var refund := ReturnResult(sales, original, requested, unit);
      var toPay :=
          Total(lines, pluginCents, unit)
              - unit * RefundCents(sales[original], Claimed(sales[original], requested), unit);
      (refund.Ok? && RingResult(lines, tenders, points, pluginCents, 0, refund.value.refundAmount, unit).Err?)
      <==> Accepted(sales[original], requested) && toPay > 0 && !CoveredBy(Offered(tenders, unit), toPay, unit)
  {
    var record := sales[original];
    var claim := Claimed(record, requested);
    ReturnAcceptedIff(sales, original, requested, unit);
    WholeClaim(record, requested, unit);
    if Accepted(record, requested) {
      RefundOfClaim(record, claim, unit);
      RingsIff(lines, tenders, points, pluginCents, unit * RefundCents(record, claim, unit), unit);
    }
  }
}
