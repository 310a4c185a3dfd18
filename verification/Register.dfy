/** The register: ringing a sale, returning it, exchanging it. */
module Register {
  import opened Numbers
  import opened Sums
  import opened Wrappers
  import opened Money
  import opened LargestRemainder
  import opened Tenders
  import opened Returns

  /** Price and tax in whole dollars, as the request carries them. */
  datatype SaleLine = SaleLine(item: nat, qty: nat, unitPrice: int, tax: int)

  datatype SaleTender = SaleTender(kind: TenderKind, amount: int)

  datatype PosError =
    | ShortOfTotal(covered: int, total: int)
    | InsufficientLoyalty
    | NoSuchSale
    | Return(error: ReturnError)

  /** Pieces per dollar. */
  function FromMajor(dollars: int, unit: nat): int { dollars * (100 * unit) }

  function Lines(lines: seq<SaleLine>, unit: nat): (r: seq<LineItem>)
    ensures |r| == |lines|
  {
    seq(|lines|, i requires 0 <= i < |lines| =>
      LineItem(lines[i].item, lines[i].qty, FromMajor(lines[i].unitPrice, unit), FromMajor(lines[i].tax, unit)))
  }

  function Offered(tenders: seq<SaleTender>, unit: nat): (r: seq<Tender>)
    ensures |r| == |tenders|
  {
    seq(|tenders|, i requires 0 <= i < |tenders| => Tender(tenders[i].kind, FromMajor(tenders[i].amount, unit)))
  }

  function TaxTotal(lines: seq<LineItem>): int {
    if lines == [] then 0 else lines[0].tax + TaxTotal(lines[1..])
  }

  /** The plugin's price in cents counts only when it is below the subtotal. */
  function DiscountedSubtotal(subtotal: int, pluginCents: Option<int>, unit: nat): int
    requires unit > 0
  {
    var cents := Truncate(subtotal, unit);
    unit * if pluginCents.Some? && pluginCents.value < cents then pluginCents.value else cents
  }

  function Total(lines: seq<SaleLine>, pluginCents: Option<int>, unit: nat): int
    requires unit > 0
  {
    DiscountedSubtotal(Subtotal(Lines(lines, unit)), pluginCents, unit) + TaxTotal(Lines(lines, unit))
  }

  /** Store credit actually used: both credits together, capped at the total. */
  function AppliedCredit(loyaltyRedeem: int, exchangeCredit: int, total: int): int {
    Min(loyaltyRedeem + exchangeCredit, total)
  }

  /** The tenders of the sale: the credit in full, then the rest split over what was offered. */
  function SettleTenders(subtotal: int, total: int, credit: int, offered: seq<Tender>, unit: nat): Result<seq<Tender>,
      PosError>
    requires unit > 0
  {
    var remaining := total - credit;
    var creditTender := if credit > 0 then [Tender(StoreCredit, credit)] else [];
    if remaining <= 0 then
      Ok(creditTender + Zip(offered, seq(|offered|, _ => 0)))
    else match SplitTotal(remaining, offered, unit)
      case Err(EmptyTenders) => Err(ShortOfTotal(0, subtotal))
      case Err(Underfunded(covered, due)) => Err(ShortOfTotal(covered, due))
      case Ok(applied) =>
        SplitLength(remaining, offered, unit);
        Ok(creditTender + Zip(offered, applied))
  }

  /** `points` is the customer's loyalty balance, absent when there is no customer. */
  function RingResult(lines: seq<SaleLine>, tenders: seq<SaleTender>, points: Option<int>, pluginCents: Option<int>,
                      loyaltyRedeem: int, exchangeCredit: int, unit: nat): Result<SaleRecord, PosError>
    requires unit > 0
  {
    var items := Lines(lines, unit);
    var subtotal := Subtotal(items);
    var total := Total(lines, pluginCents, unit);
    if loyaltyRedeem > 0 && (points.None? || points.value < loyaltyRedeem) then Err(InsufficientLoyalty)
    else match SettleTenders(subtotal, total, AppliedCredit(loyaltyRedeem, exchangeCredit, total),
        Offered(tenders, unit), unit)
      case Err(e) => Err(e)
      case Ok(applied) =>
        Ok(SaleRecord(Captured, subtotal, subtotal - DiscountedSubtotal(subtotal, pluginCents, unit),
                      TaxTotal(items), total, applied, items))
  }

  function ReturnResult(sales: map<nat, SaleRecord>, txn: nat, requested: seq<ReturnLine>,
      unit: nat): Result<RefundSplit, PosError>
    requires unit > 0
  {
    if txn !in sales then Err(NoSuchSale)
    else if sales[txn].status != Captured then Err(Return(NotReturnable(sales[txn].status)))
    else match MerchandiseResult(sales[txn], requested)
      case Err(e) => Err(Return(e))
      case Ok(value) =>
        match ComputeRefund(sales[txn], value, unit)
        case Err(e) => Err(Return(e))
        case Ok(split) => Ok(split)
  }

  class PosApp {
    const unit: nat
    /** Completed sales by transaction id. */
    var sales: map<nat, SaleRecord>
    /** The offline log: totals and tenders in the order they were recorded. */
    var offline: seq<(int, seq<Tender>)>

    ghost predicate Valid()
      reads this
    {
      unit > 0
    }

    constructor (unit: nat)
      requires unit > 0
      ensures Valid() && this.unit == unit && sales == map[] && offline == []
    {
      this.unit, sales, offline := unit, map[], [];
    }

    method RingSale(txn: nat, lines: seq<SaleLine>, tenders: seq<SaleTender>, points: Option<int>,
        pluginCents: Option<int>, loyaltyRedeem: int, exchangeCredit: int)
      returns (r: Result<SaleRecord, PosError>)
      requires Valid()
      modifies this
      ensures Valid()
      ensures r == RingResult(lines, tenders, points, pluginCents, loyaltyRedeem, exchangeCredit, unit)
      ensures r.Ok?
          ==> sales == old(sales)[txn := r.value] && offline == old(offline) + [(r.value.total, r.value.tenders)]
      ensures r.Err? ==> sales == old(sales) && offline == old(offline)
    {
      var items: seq<LineItem> := [];
      var subtotal, tax := 0, 0;
      for i := 0 to |lines|
        invariant items == Lines(lines, unit)[..i]
        invariant subtotal + Subtotal(Lines(lines, unit)[i..]) == Subtotal(Lines(lines, unit))
        invariant tax + TaxTotal(Lines(lines, unit)[i..]) == TaxTotal(Lines(lines, unit))
        invariant sales == old(sales) && offline == old(offline)
      {
        var l := lines[i];
        var item := LineItem(l.item, l.qty, FromMajor(l.unitPrice, unit), FromMajor(l.tax, unit));
        assert Lines(lines, unit)[i..][1..] == Lines(lines, unit)[i + 1..];
        items := items + [item];
        subtotal := subtotal + item.unitPrice * item.qty;
        tax := tax + item.tax;
      }
      assert items == Lines(lines, unit);
      var discounted := DiscountedSubtotal(subtotal, pluginCents, unit);
      var total := discounted + tax;
      if loyaltyRedeem > 0 {
        if points.None? || points.value < loyaltyRedeem {
          return Err(InsufficientLoyalty);
        }
      }
      var credit := Min(loyaltyRedeem + exchangeCredit, total);
      var settled := SettleTenders(subtotal, total, credit, Offered(tenders, unit), unit);
      match settled {
        case Err(e) => return Err(e);
        case Ok(applied) =>
          var record := SaleRecord(Captured, subtotal, subtotal - discounted, tax, total, applied, items);
          sales := sales[txn := record];
          offline := offline + [(total, applied)];
          return Ok(record);
      }
    }

    /** The registry keeps the sale as it was: nothing marks it as returned. */
    method ReturnSale(txn: nat, requested: seq<ReturnLine>) returns (r: Result<RefundSplit, PosError>)
      requires Valid()
      modifies this
      ensures Valid()
      ensures r == ReturnResult(old(sales), txn, requested, unit)
      ensures sales == old(sales)
      ensures offline == old(offline) + if r.Ok? then [(r.value.refundAmount, r.value.tenders)] else []
    {
      if txn !in sales {
        return Err(NoSuchSale);
      }
      var record := sales[txn];
      if record.status != Captured {
        return Err(Return(NotReturnable(record.status)));
      }
      var returned := ReturnedMerchandise(record, requested);
      if returned.Err? {
        return Err(Return(returned.error));
      }
      var split := ComputeRefund(record, returned.value, unit);
      if split.Err? {
        return Err(Return(split.error));
      }
      offline := offline + [(split.value.refundAmount, split.value.tenders)];
      return Ok(split.value);
    }

    /** A return whose refund becomes store credit on a new sale. */
    method Exchange(original: nat, requested: seq<ReturnLine>, txn: nat, lines: seq<SaleLine>, tenders: seq<SaleTender>,
                    points: Option<int>, pluginCents: Option<int>)
      returns (r: Result<(int, SaleRecord), PosError>)
      requires Valid()
      modifies this
      ensures Valid()
      ensures var refund := ReturnResult(old(sales), original, requested, unit);
        if refund.Err? then r == Err(refund.error) && sales == old(sales) && offline == old(offline)
        else
          var credit := refund.value.refundAmount;
          var sale := RingResult(lines, tenders, points, pluginCents, 0, credit, unit);
          && offline == old(offline) + [(credit, refund.value.tenders)]
                        + (if sale.Ok? then [(sale.value.total, sale.value.tenders)] else [])
          && sales == (if sale.Ok? then old(sales)[txn := sale.value] else old(sales))
          && r == (if sale.Ok? then Ok((credit, sale.value)) else Err(sale.error))
    {
      var refund := ReturnSale(original, requested);
      if refund.Err? {
        return Err(refund.error);
      }
      var sale := RingSale(txn, lines, tenders, points, pluginCents, 0, refund.value.refundAmount);
      if sale.Err? {
        return Err(sale.error);
      }
      return Ok((refund.value.refundAmount, sale.value));
    }
  }

  // ----- What a rung sale is -----

  lemma {:induction false} SumOfMultiples(a: int, b: int, unit: int)
    requires unit > 0 && a % unit == 0 && b % unit == 0
    ensures (a + b) % unit == 0 && (a - b) % unit == 0
  {
    DivMod(a, unit);
    DivMod(b, unit);
    var p, q := a / unit, b / unit;
    assert unit * (p + q) == unit * p + unit * q;
    assert unit * (p - q) == unit * p - unit * q;
    MultipleOf(unit, p + q);
    MultipleOf(unit, p - q);
  }

  lemma {:induction false} MajorIsWhole(dollars: int, qty: int, unit: nat)
    requires unit > 0
    ensures FromMajor(dollars, unit) % unit == 0
    ensures (FromMajor(dollars, unit) * qty) % unit == 0
  {
    Regroup(dollars, 100, unit);
    assert dollars * (100 * unit) == unit * (dollars * 100);
    MultipleOf(unit, dollars * 100);
    Regroup(unit, dollars * 100, qty);
    assert (unit * (dollars * 100)) * qty == unit * ((dollars * 100) * qty);
    MultipleOf(unit, (dollars * 100) * qty);
  }

  lemma {:induction false} LinesWhole(lines: seq<SaleLine>, unit: nat)
    requires unit > 0
    ensures Subtotal(Lines(lines, unit)) % unit == 0 && TaxTotal(Lines(lines, unit)) % unit == 0
  {
    if lines != [] {
      LinesWhole(lines[1..], unit);
      assert Lines(lines, unit)[1..] == Lines(lines[1..], unit);
      MajorIsWhole(lines[0].unitPrice, lines[0].qty, unit);
      MajorIsWhole(lines[0].tax, 1, unit);
      var l := Lines(lines, unit)[0];
      SumOfMultiples(l.unitPrice * l.qty, Subtotal(Lines(lines[1..], unit)), unit);
      SumOfMultiples(l.tax, TaxTotal(Lines(lines[1..], unit)), unit);
    }
  }

  lemma {:induction false} TotalWhole(lines: seq<SaleLine>, pluginCents: Option<int>, unit: nat)
    requires unit > 0
    ensures Total(lines, pluginCents, unit) % unit == 0
  {
    LinesWhole(lines, unit);
    var subtotal := Subtotal(Lines(lines, unit));
    var cents := Truncate(subtotal, unit);
    MultipleOf(unit, if pluginCents.Some? && pluginCents.value < cents then pluginCents.value else cents);
    SumOfMultiples(DiscountedSubtotal(subtotal, pluginCents, unit), TaxTotal(Lines(lines, unit)), unit);
  }

  /** Offered tenders are whole cents; a negative one has no weight and gets no share. */
  lemma {:induction false} AppliedShares(remaining: int, offered: seq<Tender>, unit: nat)
    requires unit > 0 && remaining > 0 && SplitTotal(remaining, offered, unit).Ok?
    ensures var parts := SplitTotal(remaining, offered, unit).value;
      && |parts| == |offered| && Sum(parts) == remaining - remaining % unit
      && forall i :: 0 <= i < |parts| ==> parts[i] >= 0 && parts[i] % unit == 0
  {
    var w := Weights(offered, unit);
    ExactSum(remaining, unit, w);
    var parts := Allocation(remaining, unit, w);
    forall i | 0 <= i < |parts| ensures parts[i] >= 0 && parts[i] % unit == 0 {
      Quota(remaining, unit, w, i);
      MulStep(unit, 0, Units(remaining, unit, w)[i]);
      MultipleOf(unit, Units(remaining, unit, w)[i]);
    }
  }

  lemma {:induction false} PaidSum(credit: int, offered: seq<Tender>, parts: seq<int>)
    requires |offered| == |parts|
    ensures var head := if credit > 0 then [Tender(StoreCredit, credit)] else [];
      Sum(Amounts(head + Zip(offered, parts))) == (if credit > 0 then credit else 0) + Sum(parts)
  {
    var head := if credit > 0 then [Tender(StoreCredit, credit)] else [];
    assert Amounts(head + Zip(offered, parts)) == Amounts(head) + parts;
    SumAppend(Amounts(head), parts);
    if credit > 0 {
      assert Amounts(head) == [credit];
      assert Sum([credit]) == credit + Sum([credit][1..]);
    }
  }

  /** What the tenders of a settled sale sum to, whatever the credit was. */
  lemma {:induction false} TenderSum(subtotal: int, total: int, credit: int, offered: seq<Tender>, unit: nat)
    requires unit > 0 && credit <= total && SettleTenders(subtotal, total, credit, offered, unit).Ok?
    ensures var paid := SettleTenders(subtotal, total, credit, offered, unit).value;
      Sum(Amounts(paid))
          == (if credit > 0 then credit else 0) + (total - credit)
              - (total - credit) % unit * (if total > credit then 1 else 0)
  {
    var remaining := total - credit;
    var parts := if remaining <= 0 then seq(|offered|, _ => 0) else SplitTotal(remaining, offered, unit).value;
    if remaining <= 0 { SumZeroes(parts); } else { AppliedShares(remaining, offered, unit); }
    PaidSum(credit, offered, parts);
  }

  /** A non-negative number of whole cents; or negative by less than a cent, which rounding hides. */
  predicate WholeCredit(credit: int, unit: nat)
    requires unit > 0
  {
    (credit >= 0 && credit % unit == 0) || 0 - unit < credit < 0
  }

  /** The tenders recorded for a sale sum to its total, if and only if the credit used is whole cents. */
  lemma {:induction false} TendersSumToTotalIff(lines: seq<SaleLine>, tenders: seq<SaleTender>, points: Option<int>,
      pluginCents: Option<int>, loyaltyRedeem: int, exchangeCredit: int, unit: nat)
    requires unit > 0
    requires RingResult(lines, tenders, points, pluginCents, loyaltyRedeem, exchangeCredit, unit).Ok?
    ensures var sale := RingResult(lines, tenders, points, pluginCents, loyaltyRedeem, exchangeCredit, unit).value;
      var credit := AppliedCredit(loyaltyRedeem, exchangeCredit, sale.total);
      Sum(Amounts(sale.tenders)) == sale.total <==> WholeCredit(credit, unit)
  {
    var sale := RingResult(lines, tenders, points, pluginCents, loyaltyRedeem, exchangeCredit, unit).value;
    var credit := AppliedCredit(loyaltyRedeem, exchangeCredit, sale.total);
    TotalWhole(lines, pluginCents, unit);
    SettledSumIff(sale.subtotal, sale.total, credit, Offered(tenders, unit), unit);
  }

  lemma {:induction false} SettledSumIff(subtotal: int, total: int, credit: int, offered: seq<Tender>, unit: nat)
    requires unit > 0 && credit <= total && total % unit == 0
        && SettleTenders(subtotal, total, credit, offered, unit).Ok?
    ensures Sum(Amounts(SettleTenders(subtotal, total, credit, offered, unit).value)) == total
       <==> WholeCredit(credit, unit)
  {
    TenderSum(subtotal, total, credit, offered, unit);
    PaidInFullIff(total, credit, unit);
  }

  /** When credit, and the rest rounded down to the cent, make up a whole-cent total. */
  lemma {:induction false} PaidInFullIff(total: int, credit: int, unit: nat)
    requires unit > 0 && total % unit == 0 && credit <= total
    ensures (if credit > 0 then credit else 0) + (total - credit)
        - (total - credit) % unit * (if total > credit then 1 else 0) == total
       <==> WholeCredit(credit, unit)
  {
    ResidueOfCredit(total, credit, unit);
    var rest := (total - credit) % unit;
    assert rest * (if total > credit then 1 else 0) == if total > credit then rest else 0;
  }

  /** What rounding loses from `total - credit`, for a whole-cent total. */
  lemma {:induction false} ResidueOfCredit(total: int, credit: int, unit: nat)
    requires unit > 0 && total % unit == 0
    ensures (total - credit) % unit == 0 <==> credit % unit == 0
    ensures credit < 0 ==> ((total - credit) % unit == -credit <==> 0 - unit < credit)
    ensures 0 - unit < credit < 0 ==> total != credit
  {
    DivMod(total, unit);
    DivMod(total - credit, unit);
    DivMod(credit, unit);
    if (total - credit) % unit == 0 { SumOfMultiples(total, total - credit, unit); }
    if credit % unit == 0 { SumOfMultiples(total, credit, unit); }
    if 0 - unit < credit < 0 { DivBetween(total - credit, unit, total / unit); }
  }

  /** A rung sale is settled to the cent if and only if the credit it used, after the cap, is whole cents. */
  lemma {:induction false} RungSaleSettledIff(lines: seq<SaleLine>, tenders: seq<SaleTender>, points: Option<int>,
      pluginCents: Option<int>, loyaltyRedeem: int, exchangeCredit: int, unit: nat)
    requires unit > 0
    requires RingResult(lines, tenders, points, pluginCents, loyaltyRedeem, exchangeCredit, unit).Ok?
    ensures var sale := RingResult(lines, tenders, points, pluginCents, loyaltyRedeem, exchangeCredit, unit).value;
      Settled(sale, unit) <==> WholeCredit(AppliedCredit(loyaltyRedeem, exchangeCredit, sale.total), unit)
  {
    var sale := RingResult(lines, tenders, points, pluginCents, loyaltyRedeem, exchangeCredit, unit).value;
    var credit := AppliedCredit(loyaltyRedeem, exchangeCredit, sale.total);
    TotalWhole(lines, pluginCents, unit);
    LinesWhole(lines, unit);
    TendersSumToTotalIff(lines, tenders, points, pluginCents, loyaltyRedeem, exchangeCredit, unit);
    if WholeCredit(credit, unit) {
      SettledTendersWhole(sale.subtotal, sale.total, credit, Offered(tenders, unit), unit);
    }
  }

  lemma {:induction false} SettledTendersWhole(subtotal: int, total: int, credit: int, offered: seq<Tender>, unit: nat)
    requires unit > 0 && credit <= total && WholeCredit(credit, unit)
    requires SettleTenders(subtotal, total, credit, offered, unit).Ok?
    ensures WholeCents(SettleTenders(subtotal, total, credit, offered, unit).value, unit)
  {
    if total > credit {
      RestWhole(subtotal, total, credit, offered, unit);
    } else {
      CreditWhole(subtotal, total, credit, offered, unit);
    }
  }

  lemma {:induction false} RestWhole(subtotal: int, total: int, credit: int, offered: seq<Tender>, unit: nat)
    requires unit > 0 && credit < total && (credit > 0 ==> credit % unit == 0)
    requires SettleTenders(subtotal, total, credit, offered, unit).Ok?
    ensures WholeCents(SettleTenders(subtotal, total, credit, offered, unit).value, unit)
  {
    var parts := RestPaid(subtotal, total, credit, offered, unit);
    PaidWhole(credit, offered, parts, unit);
  }

  /** The tenders of a sale with something left to pay after the credit. */
  lemma {:induction false} RestPaid(subtotal: int, total: int, credit: int, offered: seq<Tender>, unit: nat)
    returns (parts: seq<int>)
    requires unit > 0 && credit < total && SettleTenders(subtotal, total, credit, offered, unit).Ok?
    ensures |parts| == |offered| && forall i :: 0 <= i < |parts| ==> parts[i] >= 0 && parts[i] % unit == 0
    ensures SettleTenders(subtotal, total, credit, offered, unit).value
         == (if credit > 0 then [Tender(StoreCredit, credit)] else []) + Zip(offered, parts)
  {
    parts := SplitTotal(total - credit, offered, unit).value;
    AppliedShares(total - credit, offered, unit);
  }

  lemma {:induction false} CreditWhole(subtotal: int, total: int, credit: int, offered: seq<Tender>, unit: nat)
    requires unit > 0 && credit == total && (credit > 0 ==> credit % unit == 0)
    ensures SettleTenders(subtotal, total, credit, offered, unit).Ok?
    ensures WholeCents(SettleTenders(subtotal, total, credit, offered, unit).value, unit)
  {
    PaidWhole(credit, offered, seq(|offered|, _ => 0), unit);
  }

  lemma {:induction false} PaidWhole(credit: int, offered: seq<Tender>, parts: seq<int>, unit: nat)
    requires unit > 0 && |offered| == |parts| && (credit > 0 ==> credit % unit == 0)
    requires forall i :: 0 <= i < |parts| ==> parts[i] >= 0 && parts[i] % unit == 0
    ensures WholeCents((if credit > 0 then [Tender(StoreCredit, credit)] else []) + Zip(offered, parts), unit)
  {
    var head := if credit > 0 then [Tender(StoreCredit, credit)] else [];
    var paid := head + Zip(offered, parts);
    forall i | 0 <= i < |paid| ensures paid[i].amount >= 0 && paid[i].amount % unit == 0 {
      if i >= |head| { assert paid[i].amount == parts[i - |head|]; }
    }
  }

  /** The refund of everything is the total, before it is split over the tenders. */
  lemma {:induction false} FullRefundIsTotal(record: SaleRecord, unit: nat)
    requires unit > 0 && record.subtotal > 0 && record.total > 0 && record.subtotal % unit == 0
        && record.total % unit == 0
    ensures AllocateResult(record.total, unit, RefundRatios(record, record.subtotal, unit)).Ok?
    ensures AllocateResult(record.total, unit, RefundRatios(record, record.subtotal, unit)).value[0] == record.total
  {
    var t, s := record.total / unit, record.subtotal / unit;
    DivMod(record.total, unit);
    DivMod(record.subtotal, unit);
    SignOfFactor(unit, s);
    SignOfFactor(unit, t);
    TwoWaySplit(t, unit, s, 0);
    EverythingReturned(t, s);
    assert RefundRatios(record, record.subtotal, unit) == [s, 0];
  }

  /** A sale whose tenders are less than its total cannot be returned in full. */
  lemma {:induction false} UnderfundedNotReturned(record: SaleRecord, unit: nat)
    requires unit > 0 && record.subtotal > 0 && record.total > 0 && record.subtotal % unit == 0
        && record.total % unit == 0
    requires Sum(Amounts(record.tenders)) < record.total
    ensures ComputeRefund(record, record.subtotal, unit).Err?
  {
    FullRefundIsTotal(record, unit);
  }

  /** One whose tenders are more than its total does not give them back. */
  lemma {:induction false} OverfundedNotReproduced(record: SaleRecord, unit: nat)
    requires unit > 0 && record.subtotal > 0 && record.total > 0 && record.subtotal % unit == 0
        && record.total % unit == 0
    requires Sum(Amounts(record.tenders)) != record.total
    ensures ComputeRefund(record, record.subtotal, unit) != Ok(RefundSplit(record.total, record.tenders))
  {
    FullRefundIsTotal(record, unit);
    var split := SplitTotal(record.total, record.tenders, unit);
    if split.Ok? {
      SumNonNegative(Weights(record.tenders, unit));
      ExactSum(record.total, unit, Weights(record.tenders, unit));
      SplitLength(record.total, record.tenders, unit);
      assert Amounts(Zip(record.tenders, split.value)) == split.value;
    }
  }

  /**
   * Ring a sale, return all of it: every instrument, store credit included, gets back what it paid,
   * if and only if the credit used is whole cents. With a fraction of a cent of credit the tenders
   * fall short of the total, and the return is refused.
   */
  lemma {:induction false} RingThenFullReturnIff(lines: seq<SaleLine>, tenders: seq<SaleTender>, points: Option<int>,
      pluginCents: Option<int>, loyaltyRedeem: int, exchangeCredit: int, unit: nat, sales: map<nat, SaleRecord>,
      txn: nat)
    requires unit > 0
    requires RingResult(lines, tenders, points, pluginCents, loyaltyRedeem, exchangeCredit, unit).Ok?
    requires txn in sales
        && sales[txn] == RingResult(lines, tenders, points, pluginCents, loyaltyRedeem, exchangeCredit, unit).value
    requires sales[txn].subtotal > 0 && sales[txn].total > 0
    ensures var credit := AppliedCredit(loyaltyRedeem, exchangeCredit, sales[txn].total);
      && (ReturnResult(sales, txn, [], unit) == Ok(RefundSplit(sales[txn].total, sales[txn].tenders))
          <==> WholeCredit(credit, unit))
      && (credit > 0 && credit % unit != 0 ==> ReturnResult(sales, txn, [], unit).Err?)
  {
    var record := sales[txn];
    var credit := AppliedCredit(loyaltyRedeem, exchangeCredit, record.total);
    RungSaleSettledIff(lines, tenders, points, pluginCents, loyaltyRedeem, exchangeCredit, unit);
    TendersSumToTotalIff(lines, tenders, points, pluginCents, loyaltyRedeem, exchangeCredit, unit);
    TotalWhole(lines, pluginCents, unit);
    LinesWhole(lines, unit);
    if WholeCredit(credit, unit) {
      FullReturnIff(record, unit);
    } else {
      OverfundedNotReproduced(record, unit);
      if credit > 0 {
        FractionFallsShort(record.subtotal, record.total, credit, Offered(tenders, unit), unit);
        UnderfundedNotReturned(record, unit);
      }
    }
  }

  lemma {:induction false} FractionFallsShort(subtotal: int, total: int, credit: int, offered: seq<Tender>, unit: nat)
    requires unit > 0 && 0 < credit <= total && total % unit == 0 && credit % unit != 0
    requires SettleTenders(subtotal, total, credit, offered, unit).Ok?
    ensures Sum(Amounts(SettleTenders(subtotal, total, credit, offered, unit).value)) < total
  {
    TenderSum(subtotal, total, credit, offered, unit);
    ResidueOfCredit(total, credit, unit);
  }

  lemma {:induction false} RefundIsWhole(record: SaleRecord, value: int, unit: nat)
    requires unit > 0 && Settled(record, unit) && record.subtotal > 0 && record.total > 0
    requires 0 <= value <= record.subtotal && value % unit == 0
    ensures ComputeRefund(record, value, unit).Ok?
    ensures var refund := ComputeRefund(record, value, unit).value.refundAmount; refund >= 0 && refund % unit == 0
  {
    RefundComposition(record, value, unit);
    DivMod(record.subtotal, unit);
    SignOfFactor(unit, record.subtotal / unit);
    MultipleOf(unit, RoundedHalfUp(record.total / unit, value / unit, record.subtotal / unit));
  }

  /** A sale paid first with a credit of whole cents: the credit is one tender, the others pay the exact rest. */
  lemma {:induction false} CreditFirst(subtotal: int, total: int, credit: int, offered: seq<Tender>, unit: nat)
    requires unit > 0 && 0 <= credit <= total && credit % unit == 0 && total % unit == 0
    requires SettleTenders(subtotal, total, credit, offered, unit).Ok?
    ensures var paid := SettleTenders(subtotal, total, credit, offered, unit).value;
      && (credit > 0 ==> |paid| == |offered| + 1 && paid[0] == Tender(StoreCredit, credit)
                         && Sum(Amounts(paid[1..])) == total - credit)
      && (credit == 0 ==> |paid| == |offered| && Sum(Amounts(paid)) == total)
  {
    var paid := SettleTenders(subtotal, total, credit, offered, unit).value;
    SettledSumIff(subtotal, total, credit, offered, unit);
    if credit > 0 {
      assert Amounts(paid)[1..] == Amounts(paid[1..]);
    }
  }

  /** The smaller of two whole amounts, neither negative, is whole. */
  lemma {:induction false} CappedCreditWhole(refund: int, total: int, unit: nat)
    requires unit > 0 && refund >= 0 && refund % unit == 0 && total >= 0 && total % unit == 0
    ensures Min(refund, total) >= 0 && Min(refund, total) % unit == 0 && WholeCredit(Min(refund, total), unit)
  {}

  /**
   * An exchange: the refund, capped at the new total, is the store credit of the new sale, and the
   * other tenders together pay exactly the difference.
   */
  lemma {:induction false} ExchangePaysDifference(record: SaleRecord, value: int, lines: seq<SaleLine>,
      tenders: seq<SaleTender>, points: Option<int>, pluginCents: Option<int>, unit: nat)
    requires unit > 0 && Settled(record, unit) && record.subtotal > 0 && record.total > 0
    requires 0 <= value <= record.subtotal && value % unit == 0
    requires ComputeRefund(record, value, unit).Ok? && Total(lines, pluginCents, unit) >= 0
    requires RingResult(lines, tenders, points, pluginCents, 0, ComputeRefund(record, value, unit).value.refundAmount,
        unit).Ok?
    ensures var refund := ComputeRefund(record, value, unit).value.refundAmount;
      var sale := RingResult(lines, tenders, points, pluginCents, 0, refund, unit).value;
      var credit := Min(refund, sale.total);
      && Settled(sale, unit)
      && (credit > 0 ==> |sale.tenders| == |tenders| + 1 && sale.tenders[0] == Tender(StoreCredit, credit)
                         && Sum(Amounts(sale.tenders[1..])) == sale.total - credit)
      && (credit == 0 ==> |sale.tenders| == |tenders| && Sum(Amounts(sale.tenders)) == sale.total)
  {
    RefundIsWhole(record, value, unit);
    var refund := ComputeRefund(record, value, unit).value.refundAmount;
    var total := Total(lines, pluginCents, unit);
    var offered := Offered(tenders, unit);
    TotalWhole(lines, pluginCents, unit);
    CappedCreditWhole(refund, total, unit);
    assert AppliedCredit(0, refund, total) == Min(refund, total);
    RungSaleSettledIff(lines, tenders, points, pluginCents, 0, refund, unit);
    CreditFirst(Subtotal(Lines(lines, unit)), total, Min(refund, total), offered, unit);
  }

  /** Half a cent of loyalty credit against a dollar sale paid with a dollar: half a cent goes missing. */
  lemma {:induction false} FractionalCreditLosesMoney()
    ensures var sale := RingResult([SaleLine(1, 1, 1, 0)], [SaleTender(Cash, 1)], Some(5), None, 5, 0, 10);
      sale.Ok? && Sum(Amounts(sale.value.tenders)) != sale.value.total
  {
    var lines, tenders := [SaleLine(1, 1, 1, 0)], [SaleTender(Cash, 1)];
    assert Lines(lines, 10) == [LineItem(1, 1, 1000, 0)];
    assert Lines(lines, 10)[1..] == [];
    assert Subtotal(Lines(lines, 10)) == 1000 && TaxTotal(Lines(lines, 10)) == 0;
    assert Total(lines, None, 10) == 1000;
    var offered := Offered(tenders, 10);
    assert offered == [Tender(Cash, 1000)];
    assert Amounts(offered) == [1000] && Sum([1000]) == 1000 + Sum([1000][1..]);
    SplitSucceedsIff(995, offered, 10);
    assert offered[0].amount >= 10;
    TendersSumToTotalIff(lines, tenders, Some(5), None, 5, 0, 10);
  }
}
