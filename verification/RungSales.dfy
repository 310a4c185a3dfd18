/** What the register answers, stated in terms of the request alone. */
module RungSales {
  import opened Numbers
  import opened Sums
  import opened Wrappers
  import opened Money
  import opened LargestRemainder
  import opened Tenders
  import opened Returns
  import opened Register

  /** Quantity times price of every line, in pieces: a dollar is a hundred cents of `unit` pieces. */
  function LinePrices(lines: seq<SaleLine>, unit: nat): (r: seq<int>)
    ensures |r| == |lines|
  {
    seq(|lines|, i requires 0 <= i < |lines| => lines[i].qty * lines[i].unitPrice * 100 * unit)
  }

  function LineTaxes(lines: seq<SaleLine>, unit: nat): (r: seq<int>)
    ensures |r| == |lines|
  {
    seq(|lines|, i requires 0 <= i < |lines| => lines[i].tax * 100 * unit)
  }

  /** The merchandise, or the plugin's price when that is lower, and the tax. */
  function AmountDue(lines: seq<SaleLine>, pluginCents: Option<int>, unit: nat): int {
    var merchandise := Sum(LinePrices(lines, unit));
    (if pluginCents.Some? then Min(merchandise, pluginCents.value * unit) else merchandise)
        + Sum(LineTaxes(lines, unit))
  }

  function OfferedAmounts(tenders: seq<SaleTender>, unit: nat): (r: seq<int>)
    ensures |r| == |tenders|
  {
    seq(|tenders|, i requires 0 <= i < |tenders| => tenders[i].amount * 100 * unit)
  }

  /** What each tender counts for in the split: its cents, none when it is negative. */
  function OfferedCents(tenders: seq<SaleTender>): (r: seq<nat>)
    ensures |r| == |tenders|
  {
    seq(|tenders|, i requires 0 <= i < |tenders| => Max(0, tenders[i].amount * 100))
  }

  // ----- The amounts of a sale -----

  lemma {:induction false} Reorder(a: int, b: int, unit: int)
    ensures (a * (100 * unit)) * b == b * a * 100 * unit && a * (100 * unit) == a * 100 * unit
  {
    assert (a * (100 * unit)) * b == b * (a * (100 * unit)) == (b * a) * (100 * unit);
  }

  lemma {:induction false} LineTotals(lines: seq<SaleLine>, unit: nat)
    ensures Subtotal(Lines(lines, unit)) == Sum(LinePrices(lines, unit))
    ensures TaxTotal(Lines(lines, unit)) == Sum(LineTaxes(lines, unit))
  {
    if lines != [] {
      LineTotals(lines[1..], unit);
      assert Lines(lines, unit)[1..] == Lines(lines[1..], unit);
      assert LinePrices(lines, unit)[1..] == LinePrices(lines[1..], unit);
      assert LineTaxes(lines, unit)[1..] == LineTaxes(lines[1..], unit);
      Reorder(lines[0].unitPrice, lines[0].qty, unit);
      Reorder(lines[0].tax, 1, unit);
    }
  }

  lemma {:induction false} LowerPrice(subtotal: int, pluginCents: Option<int>, unit: nat)
    requires unit > 0 && subtotal % unit == 0
    ensures DiscountedSubtotal(subtotal, pluginCents, unit)
        == if pluginCents.Some? then Min(subtotal, pluginCents.value * unit) else subtotal
  {
    var cents := Truncate(subtotal, unit);
    TruncateWhole(subtotal, unit);
    if pluginCents.Some? {
      MulStep(unit, pluginCents.value, cents);
      MulStep(unit, cents, pluginCents.value);
    }
  }

  lemma {:induction false} TruncateWhole(x: int, unit: nat)
    requires unit > 0 && x % unit == 0
    ensures unit * Truncate(x, unit) == x
  {
    DivMod(x, unit);
    if x < 0 {
      NegatedModulus(x, unit);
      DivMod(-x, unit);
      assert unit * -((-x) / unit) == -(unit * ((-x) / unit));
    }
  }

  lemma {:induction false} TotalIsDue(lines: seq<SaleLine>, pluginCents: Option<int>, unit: nat)
    requires unit > 0
    ensures Total(lines, pluginCents, unit) == AmountDue(lines, pluginCents, unit)
  {
    LinesWhole(lines, unit);
    LineTotals(lines, unit);
    LowerPrice(Subtotal(Lines(lines, unit)), pluginCents, unit);
  }

  /**
   * The amounts on the record of any rung sale: subtotal and tax are added up over the lines of the
   * request, the discounted subtotal is the lower of the subtotal and the plugin's price.
   */
  lemma {:induction false} RungAmounts(lines: seq<SaleLine>, tenders: seq<SaleTender>, points: Option<int>,
      pluginCents: Option<int>, loyaltyRedeem: int, exchangeCredit: int, unit: nat)
    requires unit > 0
    requires RingResult(lines, tenders, points, pluginCents, loyaltyRedeem, exchangeCredit, unit).Ok?
    ensures var sale := RingResult(lines, tenders, points, pluginCents, loyaltyRedeem, exchangeCredit, unit).value;
      && sale.status == Captured
      && sale.subtotal == Sum(LinePrices(lines, unit))
      && sale.tax == Sum(LineTaxes(lines, unit))
      && sale.total == sale.subtotal - sale.discount + sale.tax
      && sale.subtotal - sale.discount
         == (if pluginCents.Some? then Min(sale.subtotal, pluginCents.value * unit) else sale.subtotal)
      && |sale.lines| == |lines|
      && forall i :: 0 <= i < |lines| ==>
           sale.lines[i]
           == LineItem(lines[i].item, lines[i].qty, lines[i].unitPrice * 100 * unit, lines[i].tax * 100 * unit)
  {
    LinesWhole(lines, unit);
    LineTotals(lines, unit);
    LowerPrice(Subtotal(Lines(lines, unit)), pluginCents, unit);
    forall i | 0 <= i < |lines|
      ensures Lines(lines, unit)[i]
        == LineItem(lines[i].item, lines[i].qty, lines[i].unitPrice * 100 * unit, lines[i].tax * 100 * unit)
    {
      Reorder(lines[i].unitPrice, 1, unit);
      Reorder(lines[i].tax, 1, unit);
    }
  }

  // ----- The tenders of a sale -----

  lemma {:induction false} OfferedInCents(tenders: seq<SaleTender>, unit: nat)
    requires unit > 0
    ensures Weights(Offered(tenders, unit), unit) == OfferedCents(tenders)
    ensures Amounts(Offered(tenders, unit)) == OfferedAmounts(tenders, unit)
    ensures forall i :: 0 <= i < |tenders| ==> (Offered(tenders, unit)[i].amount >= unit <==> tenders[i].amount >= 1)
  {
    forall i | 0 <= i < |tenders|
      ensures Offered(tenders, unit)[i].amount == tenders[i].amount * 100 * unit
      ensures Weight(Offered(tenders, unit)[i].amount, unit) == Max(0, tenders[i].amount * 100)
      ensures Offered(tenders, unit)[i].amount >= unit <==> tenders[i].amount >= 1
    {
      var a := tenders[i].amount;
      Reorder(a, 1, unit);
      assert a * 100 * unit == unit * (a * 100);
      SignOfFactor(unit, a * 100);
      MultipleOf(unit, a * 100);
      MulStep(unit, 0, a * 100);
      MulStep(unit, a * 100, 0);
      MulStep(unit, 1, a * 100);
    }
  }

  /** What each tender pays of the amount: its fair share by cents offered, nothing when nothing is due. */
  ghost function SharesOf(amount: int, unit: nat, cents: seq<nat>): (r: seq<int>)
    requires unit > 0
    ensures |r| == |cents|
  {
    seq(|cents|, i requires 0 <= i < |cents| =>
      if amount > 0 && Sum(cents) > 0 then unit * FairShare(amount, unit, cents, i) else 0)
  }

  ghost predicate PaysShares(paid: seq<Tender>, tenders: seq<SaleTender>, amount: int, unit: nat)
    requires unit > 0
  {
    && |paid| == |tenders| && (forall i :: 0 <= i < |tenders| ==> paid[i].kind == tenders[i].kind)
    && Amounts(paid) == SharesOf(amount, unit, OfferedCents(tenders))
  }

  /** The credit comes first, in full; the tenders offered pay fair shares of the rest. */
  ghost predicate PaidWith(paid: seq<Tender>, credit: int, rest: int, tenders: seq<SaleTender>, unit: nat)
    requires unit > 0
  {
    if credit > 0
    then paid != [] && paid[0] == Tender(StoreCredit, credit) && PaysShares(paid[1..], tenders, rest, unit)
    else PaysShares(paid, tenders, rest, unit)
  }

  lemma {:induction false} SharesPaid(rest: int, tenders: seq<SaleTender>, unit: nat)
    requires unit > 0 && rest > 0 && Sum(OfferedCents(tenders)) > 0
    ensures PaysShares(Zip(Offered(tenders, unit), Allocation(rest, unit, OfferedCents(tenders))), tenders, rest, unit)
  {
    var cents := OfferedCents(tenders);
    var paid := Zip(Offered(tenders, unit), Allocation(rest, unit, cents));
    forall i | 0 <= i < |tenders| ensures Allocation(rest, unit, cents)[i] == unit * FairShare(rest, unit, cents, i) {
      UnitsAreFair(rest, unit, cents, i);
    }
    assert Amounts(paid) == SharesOf(rest, unit, cents);
  }

  lemma {:induction false} NothingPaid(rest: int, tenders: seq<SaleTender>, unit: nat)
    requires unit > 0 && rest <= 0
    ensures PaysShares(Zip(Offered(tenders, unit), seq(|tenders|, _ => 0)), tenders, rest, unit)
  {
    var paid := Zip(Offered(tenders, unit), seq(|tenders|, _ => 0));
    assert Amounts(paid) == SharesOf(rest, unit, OfferedCents(tenders));
  }

  lemma {:induction false} SettledWith(subtotal: int, total: int, credit: int, tenders: seq<SaleTender>, unit: nat,
      paid: seq<Tender>)
    requires unit > 0 && SettleTenders(subtotal, total, credit, Offered(tenders, unit), unit) == Ok(paid)
    ensures total > credit ==> Sum(OfferedCents(tenders)) > 0
    ensures PaidWith(paid, credit, total - credit, tenders, unit)
  {
    var offered, rest := Offered(tenders, unit), total - credit;
    OfferedInCents(tenders, unit);
    if rest > 0 {
      SharesPaid(rest, tenders, unit);
      CreditFirst(credit, Zip(offered, Allocation(rest, unit, OfferedCents(tenders))), rest, tenders, unit);
    } else {
      NothingPaid(rest, tenders, unit);
      CreditFirst(credit, Zip(offered, seq(|offered|, _ => 0)), rest, tenders, unit);
    }
  }

  lemma {:induction false} CreditFirst(credit: int, applied: seq<Tender>, rest: int, tenders: seq<SaleTender>,
      unit: nat)
    requires unit > 0 && PaysShares(applied, tenders, rest, unit)
    ensures PaidWith((if credit > 0 then [Tender(StoreCredit, credit)] else []) + applied, credit, rest, tenders, unit)
  {
    if credit > 0 {
      assert ([Tender(StoreCredit, credit)] + applied)[1..] == applied;
    } else {
      assert [] + applied == applied;
    }
  }

  /** A sale is paid first with the credit, in full; the tenders offered pay fair shares of the rest. */
  lemma {:induction false} RungTenders(lines: seq<SaleLine>, tenders: seq<SaleTender>, points: Option<int>,
      pluginCents: Option<int>, loyaltyRedeem: int, exchangeCredit: int, unit: nat, sale: SaleRecord)
    requires unit > 0
    requires RingResult(lines, tenders, points, pluginCents, loyaltyRedeem, exchangeCredit, unit) == Ok(sale)
    ensures sale.total > Min(loyaltyRedeem + exchangeCredit, sale.total) ==> Sum(OfferedCents(tenders)) > 0
    ensures var credit := Min(loyaltyRedeem + exchangeCredit, sale.total);
      PaidWith(sale.tenders, credit, sale.total - credit, tenders, unit)
  {
    RungIsSettled(lines, tenders, points, pluginCents, loyaltyRedeem, exchangeCredit, unit, sale);
    SettledWith(sale.subtotal, sale.total, Min(loyaltyRedeem + exchangeCredit, sale.total), tenders, unit,
        sale.tenders);
  }

  lemma {:induction false} RungIsSettled(lines: seq<SaleLine>, tenders: seq<SaleTender>, points: Option<int>,
      pluginCents: Option<int>, loyaltyRedeem: int, exchangeCredit: int, unit: nat, sale: SaleRecord)
    requires unit > 0
    requires RingResult(lines, tenders, points, pluginCents, loyaltyRedeem, exchangeCredit, unit) == Ok(sale)
    ensures SettleTenders(sale.subtotal, sale.total, Min(loyaltyRedeem + exchangeCredit, sale.total),
        Offered(tenders, unit), unit) == Ok(sale.tenders)
  {
  }

  /**
   * A sale is rung exactly when the points to redeem are there and the tenders offered cover what the
   * credit leaves to pay, one of them being worth something. Otherwise the error says which was
   * missing: points, or money and how much of it; without a tender worth something the source
   * reports nothing covered of the undiscounted subtotal.
   */
  lemma {:induction false} RungIff(lines: seq<SaleLine>, tenders: seq<SaleTender>, points: Option<int>,
      pluginCents: Option<int>, loyaltyRedeem: int, exchangeCredit: int, unit: nat)
    requires unit > 0
    ensures var r := RingResult(lines, tenders, points, pluginCents, loyaltyRedeem, exchangeCredit, unit);
      var toPay := AmountDue(lines, pluginCents, unit) - (loyaltyRedeem + exchangeCredit);
      var offered := Sum(OfferedAmounts(tenders, unit));
      var short := loyaltyRedeem > 0 && (points.None? || points.value < loyaltyRedeem);
      && (r == Err(InsufficientLoyalty) <==> short)
      && (r.Ok? <==> !short && (toPay <= 0
                                || (offered >= toPay && exists i :: 0 <= i < |tenders| && tenders[i].amount >= 1)))
      && (!short && toPay > 0 && tenders != [] && offered < toPay ==> r == Err(ShortOfTotal(offered, toPay)))
      && (!short && toPay > 0 && (forall i :: 0 <= i < |tenders| ==> tenders[i].amount < 1)
          && (tenders == [] || offered >= toPay)
          ==> r == Err(ShortOfTotal(0, Sum(LinePrices(lines, unit)))))
  {
    var toPay := AmountDue(lines, pluginCents, unit) - (loyaltyRedeem + exchangeCredit);
    TotalIsDue(lines, pluginCents, unit);
    LineTotals(lines, unit);
    OfferedInCents(tenders, unit);
    if toPay > 0 { SplitSucceedsIff(toPay, Offered(tenders, unit), unit); }
  }

  /** A dollar of tax on a ten dollar item, paid in cash. */
  lemma {:induction false} TaxIsCharged()
    ensures var r := RingResult([SaleLine(1, 1, 10, 1)], [SaleTender(Cash, 11)], None, None, 0, 0, 1);
      r.Ok? && r.value.tax == 100 && r.value.total == 1100
  {
    var lines, tenders := [SaleLine(1, 1, 10, 1)], [SaleTender(Cash, 11)];
    OneLineSums();
    assert tenders[0].amount >= 1;
    RungIff(lines, tenders, None, None, 0, 0, 1);
    RungAmounts(lines, tenders, None, None, 0, 0, 1);
  }

  lemma {:induction false} OneLineSums()
    ensures Sum(LinePrices([SaleLine(1, 1, 10, 1)], 1)) == 1000 && Sum(LineTaxes([SaleLine(1, 1, 10, 1)], 1)) == 100
    ensures Sum(OfferedAmounts([SaleTender(Cash, 11)], 1)) == 1100
  {
    assert LinePrices([SaleLine(1, 1, 10, 1)], 1) == [1000] && LineTaxes([SaleLine(1, 1, 10, 1)], 1) == [100];
    assert OfferedAmounts([SaleTender(Cash, 11)], 1) == [1100];
    assert Sum([1000]) == 1000 + Sum([1000][1..]) && Sum([100]) == 100 + Sum([100][1..]);
    assert Sum([1100]) == 1100 + Sum([1100][1..]);
  }
}
