/** Returns: the refund of a captured sale and its split over the original tenders. */
module Returns {
  import opened Sums
  import opened Wrappers
  import opened Money
  import opened LargestRemainder
  import opened Tenders

  datatype TxnStatus = Cart | Tendering | Authorized | Captured | Voided | Refunded | Returned

  datatype LineItem = LineItem(item: nat, qty: nat, unitPrice: int, tax: int)

  datatype SaleRecord = SaleRecord(
    status: TxnStatus, subtotal: int, discount: int, tax: int, total: int, tenders: seq<Tender>, lines: seq<LineItem>)

  datatype ReturnLine = ReturnLine(item: nat, qty: nat)

  datatype RefundSplit = RefundSplit(refundAmount: int, tenders: seq<Tender>)

  datatype ReturnError =
    | NotReturnable(status: TxnStatus)
    | OverReturn
    | SplitFailed(error: TenderError)

  // ----- The value of what is returned -----

  /** The unit prices of all sold lines of `item`, added up. */
  function MatchedPrice(lines: seq<LineItem>, item: nat): int {
    if lines == [] then 0
    else (if lines[0].item == item then lines[0].unitPrice else 0) + MatchedPrice(lines[1..], item)
  }

  function ReturnValue(lines: seq<LineItem>, requested: seq<ReturnLine>): int {
    if requested == [] then 0
    else MatchedPrice(lines, requested[0].item) * requested[0].qty + ReturnValue(lines, requested[1..])
  }

  function MerchandiseResult(record: SaleRecord, requested: seq<ReturnLine>): Result<int, ReturnError> {
    var value := if requested == [] then record.subtotal else ReturnValue(record.lines, requested);
    if value > record.subtotal then Err(OverReturn) else Ok(value)
  }

  /** `matched` for one return line: every sold line of the item, at its price times the returned quantity. */
  method MatchedMerchandise(lines: seq<LineItem>, r: ReturnLine) returns (matched: int)
    ensures matched == MatchedPrice(lines, r.item) * r.qty
  {
    matched := 0;
    for i := 0 to |lines|
      invariant matched + MatchedPrice(lines[i..], r.item) * r.qty == MatchedPrice(lines, r.item) * r.qty
    {
      var l := lines[i];
      assert lines[i..][1..] == lines[i + 1..];
      if l.item == r.item {
        Distribute(r.qty, l.unitPrice, MatchedPrice(lines[i + 1..], r.item));
        matched := matched + l.unitPrice * r.qty;
      }
    }
  }

  method ReturnedMerchandise(record: SaleRecord, requested: seq<ReturnLine>) returns (r: Result<int, ReturnError>)
    ensures r == MerchandiseResult(record, requested)
  {
    var total;
    if |requested| == 0 {
      total := record.subtotal;
    } else {
      var sum := 0;
      for i := 0 to |requested|
        invariant sum + ReturnValue(record.lines, requested[i..]) == ReturnValue(record.lines, requested)
      {
        assert requested[i..][1..] == requested[i + 1..];
        var matched := MatchedMerchandise(record.lines, requested[i]);
        sum := sum + matched;
      }
      total := sum;
    }
    if total > record.subtotal {
      return Err(OverReturn);
    }
    r := Ok(total);
  }

  /** The prices of the lines that sell the item, and nothing for the others. */
  function PricesOf(lines: seq<LineItem>, item: nat): (r: seq<int>)
    ensures |r| == |lines|
  {
    seq(|lines|, i requires 0 <= i < |lines| => if lines[i].item == item then lines[i].unitPrice else 0)
  }

  lemma {:induction false} MatchedIsSum(lines: seq<LineItem>, item: nat)
    ensures MatchedPrice(lines, item) == Sum(PricesOf(lines, item))
  {
    if lines != [] {
      MatchedIsSum(lines[1..], item);
      assert PricesOf(lines, item)[1..] == PricesOf(lines[1..], item);
    }
  }

  /** Each request is worth its quantity at the prices of the item's lines. */
  function RequestValues(lines: seq<LineItem>, requested: seq<ReturnLine>): (r: seq<int>)
    ensures |r| == |requested|
  {
    seq(|requested|, k requires 0 <= k < |requested| =>
      requested[k].qty * Sum(PricesOf(lines, requested[k].item)))
  }

  lemma {:induction false} ReturnValueIsSum(lines: seq<LineItem>, requested: seq<ReturnLine>)
    ensures ReturnValue(lines, requested) == Sum(RequestValues(lines, requested))
  {
    if requested != [] {
      MatchedIsSum(lines, requested[0].item);
      ReturnValueIsSum(lines, requested[1..]);
      assert RequestValues(lines, requested)[1..] == RequestValues(lines, requested[1..]);
    }
  }

  /** An empty request claims the whole subtotal; a claim is refused exactly when it is more than that. */
  lemma {:induction false} MerchandiseClaimed(record: SaleRecord, requested: seq<ReturnLine>)
    ensures var claim := if requested == [] then record.subtotal else Sum(RequestValues(record.lines, requested));
      MerchandiseResult(record, requested) == if claim > record.subtotal then Err(OverReturn) else Ok(claim)
  {
    ReturnValueIsSum(record.lines, requested);
  }

  // ----- The refund -----

  function Zip(tenders: seq<Tender>, parts: seq<int>): (r: seq<Tender>)
    requires |tenders| == |parts|
    ensures |r| == |parts|
  {
    seq(|parts|, i requires 0 <= i < |parts| => Tender(tenders[i].kind, parts[i]))
  }

  lemma {:induction false} SplitLength(total: int, tenders: seq<Tender>, unit: nat)
    requires unit > 0 && SplitTotal(total, tenders, unit).Ok?
    ensures |SplitTotal(total, tenders, unit).value| == |tenders|
  {}

  /** The returned value and the rest of the subtotal, as ratios for the total. */
  function RefundRatios(record: SaleRecord, returned: int, unit: nat): (r: seq<nat>)
    requires unit > 0
    ensures |r| == 2
  {
    var rw, sw := Weight(returned, unit), Weight(record.subtotal, unit);
    [rw, if sw >= rw then sw - rw else 0]
  }

  function ComputeRefund(record: SaleRecord, returned: int, unit: nat): Result<RefundSplit, ReturnError>
    requires unit > 0
  {
    if returned > record.subtotal then Err(OverReturn)
    else match AllocateResult(record.total, unit, RefundRatios(record, returned, unit))
      case Err(_) => Err(SplitFailed(EmptyTenders))
      case Ok(parts) =>
        match SplitTotal(parts[0], record.tenders, unit)
        case Err(e) => Err(SplitFailed(e))
        case Ok(applied) =>
          SplitLength(parts[0], record.tenders, unit);
          Ok(RefundSplit(parts[0], Zip(record.tenders, applied)))
  }

  /** A sale settled to the cent: whole-cent tenders that sum to the total. */
  ghost predicate Settled(record: SaleRecord, unit: nat)
    requires unit > 0
  {
    && record.status == Captured
    && record.total % unit == 0 && record.subtotal % unit == 0
    && WholeCents(record.tenders, unit)
    && Sum(Amounts(record.tenders)) == record.total
  }

  /** `total * returned / subtotal`, rounded half up to the cent. */
  function RoundedHalfUp(total: int, returned: int, subtotal: int): int
    requires subtotal > 0
  {
    (2 * (total * returned) + subtotal) / (2 * subtotal)
  }

  lemma {:induction false} HalfUp(x: int, s: int)
    requires s > 0
    ensures (2 * x + s) / (2 * s) == x / s + if 2 * (x % s) >= s then 1 else 0
  {
    DivMod(x, s);
    var f := x / s;
    assert (2 * s) * f == 2 * (s * f);
    assert (2 * s) * (f + 1) == 2 * (s * f) + 2 * s;
    DivBetween(2 * x + s, 2 * s, if 2 * (x % s) >= s then f + 1 else f);
  }

  /** Cancelling the pieces per cent from a share. */
  lemma {:induction false} CancelUnit(unit: nat, t: int, r: int, s: int)
    requires unit > 0 && s > 0 && unit * s > 0
    ensures ((unit * t) * r) / (unit * s) == (t * r) / s
    ensures ((unit * t) * r) % (unit * s) == unit * ((t * r) % s)
  {
    var x := t * r;
    DivMod(x, s);
    var q := x / s;
    Regroup(unit, t, r);
    assert (unit * t) * r == unit * x by { assert (unit * r) * t == unit * (r * t); }
    assert unit * (s * q + x % s) == unit * (s * q) + unit * (x % s);
    assert (unit * s) * q == unit * (s * q);
    MulStep(unit, x % s, s);
    MulStep(unit, 0, x % s);
    DivBetween(unit * x, unit * s, q);
    DivMod(unit * x, unit * s);
  }

  lemma {:induction false} SumPair(s: seq<int>)
    requires |s| == 2
    ensures Sum(s) == s[0] + s[1]
  {
    assert s[1..] == [s[1]];
    assert Sum([s[1]]) == s[1] + Sum([s[1]][1..]);
  }

  /** A two-way split rounds its first share half up: the tie goes to index 0. */
  lemma {:induction false} TwoWaySplit(t: nat, unit: nat, r: nat, rest: nat)
    requires unit > 0 && r + rest > 0
    ensures Sum([r, rest]) == r + rest
    ensures Units(unit * t, unit, [r, rest])[0] == RoundedHalfUp(t, r, r + rest)
  {
    var ratios: seq<nat> := [r, rest];
    var amount, s := unit * t, r + rest;
    SumPair(ratios);
    assert amount >= 0;
    var u := Units(amount, unit, ratios);
    SumPair(u);
    ExactSum(amount, unit, ratios);
    MultipleOf(unit, t);
    assert u[0] + u[1] == t;
    UnitsAt(amount, unit, ratios, 0);
    UnitsAt(amount, unit, ratios, 1);
    RemainderBounds(amount, unit, ratios, 0);
    RemainderBounds(amount, unit, ratios, 1);
    CancelUnit(unit, t, r, s);
    CancelUnit(unit, t, rest, s);
    HalfUp(t * r, s);
    ComplementaryShares(t, r, rest);
    RecipientsSuffice(amount, unit, ratios);
    var rho, sigma := (t * r) % s, (t * rest) % s;
    if Served(amount, unit, ratios, 0) && !Served(amount, unit, ratios, 1) {
      ServedComeFirst(amount, unit, ratios, 0, 1);
      MulStep(unit, rho, sigma);
    }
    if Served(amount, unit, ratios, 1) && !Served(amount, unit, ratios, 0) {
      ServedComeFirst(amount, unit, ratios, 1, 0);
      MulStep(unit, sigma, rho);
    }
  }

  lemma {:induction false} ComplementaryShares(t: nat, r: nat, rest: nat)
    requires r + rest > 0
    ensures var s := r + rest; var rho := (t * r) % s; var sigma := (t * rest) % s;
      if rho == 0 then sigma == 0 && (t * r) / s + (t * rest) / s == t
      else sigma == s - rho && (t * r) / s + (t * rest) / s == t - 1
  {
    var s := r + rest;
    DivMod(t * r, s);
    DivMod(t * rest, s);
    var p, q := (t * r) / s, (t * rest) / s;
    assert t * r + t * rest == t * s;
    assert s * (t - p) == s * t - s * p;
    assert s * (t - p - 1) == s * t - s * p - s;
    if (t * r) % s == 0 {
      DivBetween(t * rest, s, t - p);
    } else {
      DivBetween(t * rest, s, t - p - 1);
    }
  }

  /**
   * The refund of a settled sale: `total * returned / subtotal` rounded half up to the cent,
   * never more than the total, split over the original tenders so that the parts sum exactly to
   * it and no tender is refunded more than it paid.
   */
  lemma {:induction false} RefundComposition(record: SaleRecord, returned: int, unit: nat)
    requires unit > 0 && Settled(record, unit) && record.subtotal > 0 && record.total > 0
    requires 0 <= returned <= record.subtotal && returned % unit == 0
    ensures ComputeRefund(record, returned, unit).Ok?
    ensures var split := ComputeRefund(record, returned, unit).value;
      && split.refundAmount == unit * RoundedHalfUp(record.total / unit, returned / unit, record.subtotal / unit)
      && 0 <= split.refundAmount <= record.total
      && Sum(Amounts(split.tenders)) == split.refundAmount
      && |split.tenders| == |record.tenders|
      && forall i :: 0 <= i < |record.tenders| ==>
           && split.tenders[i].kind == record.tenders[i].kind
           && 0 <= split.tenders[i].amount <= record.tenders[i].amount
  {
    var t, r, s := record.total / unit, returned / unit, record.subtotal / unit;
    DivMod(record.total, unit);
    DivMod(returned, unit);
    DivMod(record.subtotal, unit);
    DivMonotone(returned, record.subtotal, unit);
    SignOfFactor(unit, s);
    SignOfFactor(unit, t);
    assert r >= 0 by { SignOfFactor(unit, r); }
    TwoWaySplit(t, unit, r, s - r);
    var ratios := RefundRatios(record, returned, unit);
    assert ratios == [r, s - r];
    var refund := Allocation(record.total, unit, ratios)[0];
    assert refund == unit * RoundedHalfUp(t, r, s);
    Quota(record.total, unit, ratios, 0);
    RefundAtMostTotal(record.total, unit, ratios);
    MultipleOf(unit, Units(record.total, unit, ratios)[0]);
    SplitWithinTenders(refund, record.tenders, unit);
    var applied := SplitTotal(refund, record.tenders, unit).value;
    assert Amounts(Zip(record.tenders, applied)) == applied;
  }

  /** One part of a whole-cent amount is between nothing and the amount. */
  lemma {:induction false} RefundAtMostTotal(amount: int, unit: nat, ratios: seq<nat>)
    requires unit > 0 && |ratios| > 0 && Sum(ratios) > 0 && amount >= 0 && amount % unit == 0
    ensures 0 <= Allocation(amount, unit, ratios)[0] <= amount
  {
    var parts := Allocation(amount, unit, ratios);
    forall i | 0 <= i < |parts| ensures parts[i] >= 0 {
      Quota(amount, unit, ratios, i);
      MulStep(unit, 0, Units(amount, unit, ratios)[i]);
    }
    SumNonNegative(parts);
    ExactSum(amount, unit, ratios);
  }

  lemma {:induction false} FullReturnReproduces(record: SaleRecord, unit: nat)
    requires unit > 0 && Settled(record, unit) && record.subtotal > 0 && record.total > 0
    ensures ComputeRefund(record, record.subtotal, unit) == Ok(RefundSplit(record.total, record.tenders))
  {
    RefundComposition(record, record.subtotal, unit);
    var s, t := record.subtotal / unit, record.total / unit;
    DivMod(record.subtotal, unit);
    DivMod(record.total, unit);
    SignOfFactor(unit, s);
    EverythingReturned(t, s);
    SplitAllReproduces(record.tenders, unit);
    assert Zip(record.tenders, Amounts(record.tenders)) == record.tenders;
  }

  lemma {:induction false} EverythingReturned(t: int, s: int)
    requires s > 0
    ensures RoundedHalfUp(t, s, s) == t
  {
    HalfUp(t * s, s);
    DivBetween(t * s, s, t);
    DivMod(t * s, s);
  }

  lemma {:induction false} NothingSoldFails(record: SaleRecord, unit: nat)
    requires unit > 0 && record.subtotal <= 0
    ensures ComputeRefund(record, record.subtotal, unit) == Err(SplitFailed(EmptyTenders))
  {
    SumPair(RefundRatios(record, record.subtotal, unit));
    DivLess(0, unit, 1);
    DivLess(0, unit, 0);
  }

  lemma {:induction false} NothingPaidFails(record: SaleRecord, unit: nat)
    requires unit > 0 && Settled(record, unit) && record.total == 0
    ensures ComputeRefund(record, record.subtotal, unit).Err?
  {
    var ratios := RefundRatios(record, record.subtotal, unit);
    SumNonNegative(ratios);
    SumNonNegative(Amounts(record.tenders));
    if Sum(ratios) > 0 {
      forall i | 0 <= i < |record.tenders| ensures record.tenders[i].amount < unit {
        assert Amounts(record.tenders)[i] <= 0;
      }
      SplitSucceedsIff(Allocation(0, unit, ratios)[0], record.tenders, unit);
    }
  }

  /**
   * A full return hands back exactly the original tenders, if and only if the sale had
   * merchandise to return and something was paid for it.
   */
  lemma {:induction false} FullReturnIff(record: SaleRecord, unit: nat)
    requires unit > 0 && Settled(record, unit)
    ensures ComputeRefund(record, record.subtotal, unit) == Ok(RefundSplit(record.total, record.tenders))
       <==> record.subtotal > 0 && record.total > 0
  {
    SumNonNegative(Amounts(record.tenders));
    if record.subtotal <= 0 {
      NothingSoldFails(record, unit);
    } else if record.total == 0 {
      NothingPaidFails(record, unit);
    } else {
      FullReturnReproduces(record, unit);
    }
  }

  lemma {:induction false} HalfUpMonotone(t: int, less: int, more: int, s: int)
    requires s > 0 && t >= 0 && less <= more
    ensures RoundedHalfUp(t, less, s) <= RoundedHalfUp(t, more, s)
  {
    MulStepWeak(t, less, more);
    DivMonotone(2 * (t * less) + s, 2 * (t * more) + s, 2 * s);
  }

  /** Returning more never refunds less. */
  lemma {:induction false} RefundMonotone(record: SaleRecord, less: int, more: int, unit: nat)
    requires unit > 0 && Settled(record, unit) && record.subtotal > 0 && record.total > 0
    requires 0 <= less <= more <= record.subtotal && less % unit == 0 && more % unit == 0
    ensures ComputeRefund(record, less, unit).Ok? && ComputeRefund(record, more, unit).Ok?
    ensures ComputeRefund(record, less, unit).value.refundAmount <= ComputeRefund(record, more, unit).value.refundAmount
  {
    RefundComposition(record, less, unit);
    RefundComposition(record, more, unit);
    var t, s := record.total / unit, record.subtotal / unit;
    DivMod(record.subtotal, unit);
    SignOfFactor(unit, s);
    DivMonotone(less, more, unit);
    DivLess(record.total, unit, 0);
    HalfUpMonotone(t, less / unit, more / unit, s);
    MulStep(unit, RoundedHalfUp(t, less / unit, s), RoundedHalfUp(t, more / unit, s));
  }

  lemma {:induction false} MulStepWeak(m: int, a: int, b: int)
    requires m >= 0 && a <= b
    ensures m * a <= m * b
  {}

  // ----- Line-level returns -----

  function Subtotal(lines: seq<LineItem>): int {
    if lines == [] then 0 else lines[0].unitPrice * lines[0].qty + Subtotal(lines[1..])
  }

  ghost predicate DistinctItems(lines: seq<LineItem>) {
    forall i, j :: 0 <= i < j < |lines| ==> lines[i].item != lines[j].item
  }

  /** Every line, returned at the quantity sold. */
  function AllLines(lines: seq<LineItem>): (r: seq<ReturnLine>)
    ensures |r| == |lines|
  {
    seq(|lines|, i requires 0 <= i < |lines| => ReturnLine(lines[i].item, lines[i].qty))
  }

  /** The prices of the item's other lines, added up. */
  function OtherPrices(lines: seq<LineItem>, i: nat): int
    requires i < |lines|
  {
    MatchedPrice(lines[..i] + lines[i + 1..], lines[i].item)
  }

  lemma {:induction false} MatchedAppend(a: seq<LineItem>, b: seq<LineItem>, item: nat)
    ensures MatchedPrice(a + b, item) == MatchedPrice(a, item) + MatchedPrice(b, item)
  {
    if a == [] {
      assert a + b == b;
    } else {
      assert (a + b)[1..] == a[1..] + b;
      MatchedAppend(a[1..], b, item);
    }
  }

  /** A unit of a line's item is valued at that line's price plus the prices of the item's other lines. */
  lemma {:induction false} ValuedAtAllPrices(lines: seq<LineItem>, i: nat)
    requires i < |lines|
    ensures MatchedPrice(lines, lines[i].item) == lines[i].unitPrice + OtherPrices(lines, i)
  {
    assert lines == lines[..i] + ([lines[i]] + lines[i + 1..]);
    MatchedAppend(lines[..i], [lines[i]] + lines[i + 1..], lines[i].item);
    MatchedAppend([lines[i]], lines[i + 1..], lines[i].item);
    MatchedAppend(lines[..i], lines[i + 1..], lines[i].item);
    assert [lines[i]][1..] == [];
  }

  ghost predicate PositivePrices(lines: seq<LineItem>) {
    forall i :: 0 <= i < |lines| ==> lines[i].unitPrice > 0
  }

  /** Another line sells the same item. */
  ghost predicate Shared(lines: seq<LineItem>, i: nat)
    requires i < |lines|
  {
    exists j :: 0 <= j < |lines| && j != i && lines[j].item == lines[i].item
  }

  lemma {:induction false} PositiveMatches(lines: seq<LineItem>, item: nat)
    requires PositivePrices(lines)
    ensures MatchedPrice(lines, item) >= 0
    ensures MatchedPrice(lines, item) == 0 <==> forall j :: 0 <= j < |lines| ==> lines[j].item != item
  {
    if lines != [] {
      PositiveMatches(lines[1..], item);
      assert forall j :: 1 <= j < |lines| ==> lines[j] == lines[1..][j - 1];
      assert MatchedPrice(lines[1..], item) == 0 <==> forall j :: 1 <= j < |lines| ==> lines[j].item != item by {
        assert forall j :: 0 <= j < |lines[1..]| ==> lines[1..][j] == lines[j + 1];
      }
    }
  }

  /** With positive prices a line is overvalued exactly when its item is on another line too. */
  lemma {:induction false} OvervaluedIffShared(lines: seq<LineItem>, i: nat)
    requires i < |lines| && PositivePrices(lines)
    ensures MatchedPrice(lines, lines[i].item) >= lines[i].unitPrice
    ensures MatchedPrice(lines, lines[i].item) == lines[i].unitPrice <==> !Shared(lines, i)
  {
    ValuedAtAllPrices(lines, i);
    var others := lines[..i] + lines[i + 1..];
    PositiveMatches(others, lines[i].item);
    forall j | 0 <= j < |others| ensures others[j] == lines[if j < i then j else j + 1] {}
    if Shared(lines, i) {
      var j :| 0 <= j < |lines| && j != i && lines[j].item == lines[i].item;
      assert others[if j < i then j else j - 1] == lines[j];
    }
  }

  /** "Each return line is valued at the original unit price": exactly when no item is on two lines. */
  lemma {:induction false} OriginalPriceIff(lines: seq<LineItem>)
    requires PositivePrices(lines)
    ensures (forall i :: 0 <= i < |lines| ==> MatchedPrice(lines, lines[i].item) == lines[i].unitPrice)
        <==> DistinctItems(lines)
  {
    forall i | 0 <= i < |lines|
      ensures MatchedPrice(lines, lines[i].item) == lines[i].unitPrice <==> !Shared(lines, i)
    {
      OvervaluedIffShared(lines, i);
    }
    if !DistinctItems(lines) {
      var i, j :| 0 <= i < j < |lines| && lines[i].item == lines[j].item;
      assert Shared(lines, i);
    }
  }

  lemma {:induction false} AllLinesExcess(lines: seq<LineItem>, k: nat)
    requires k <= |lines| && PositivePrices(lines)
    ensures ReturnValue(lines, AllLines(lines)[k..]) >= Subtotal(lines[k..])
    ensures ReturnValue(lines, AllLines(lines)[k..]) == Subtotal(lines[k..])
       <==> forall i :: k <= i < |lines| && Shared(lines, i) ==> lines[i].qty == 0
    decreases |lines| - k
  {
    if k < |lines| {
      AllLinesExcess(lines, k + 1);
      assert AllLines(lines)[k..][1..] == AllLines(lines)[k + 1..];
      assert lines[k..][1..] == lines[k + 1..];
      OvervaluedIffShared(lines, k);
      LineExcess(MatchedPrice(lines, lines[k].item), lines[k].unitPrice, lines[k].qty);
    }
  }

  lemma {:induction false} LineExcess(valued: int, price: int, qty: nat)
    requires valued >= price
    ensures valued * qty >= price * qty
    ensures valued * qty == price * qty <==> valued == price || qty == 0
  {
    assert valued * qty - price * qty == (valued - price) * qty;
    if valued > price && qty > 0 { assert (valued - price) * qty > 0; }
  }

  /**
   * Returning a sale line by line is worth what a full return is worth exactly when no line with
   * units on it shares its item with another line; otherwise it is refused as more than was bought.
   */
  lemma {:induction false} AllLinesIsFullReturnIff(record: SaleRecord)
    requires PositivePrices(record.lines) && record.subtotal == Subtotal(record.lines)
    ensures var kept := forall i :: 0 <= i < |record.lines| && Shared(record.lines, i) ==> record.lines[i].qty == 0;
      MerchandiseResult(record, AllLines(record.lines)) == if kept then Ok(record.subtotal) else Err(OverReturn)
    ensures MerchandiseResult(record, []) == Ok(record.subtotal)
  {
    AllLinesExcess(record.lines, 0);
    assert AllLines(record.lines)[0..] == AllLines(record.lines) && record.lines[0..] == record.lines;
    if record.lines == [] { assert record.subtotal == 0; }
  }

  lemma {:induction false} NoneMatched(lines: seq<LineItem>, item: nat)
    requires forall i :: 0 <= i < |lines| ==> lines[i].item != item
    ensures MatchedPrice(lines, item) == 0
  {
    if lines != [] { NoneMatched(lines[1..], item); }
  }

  lemma {:induction false} AllLinesValue(lines: seq<LineItem>, k: nat)
    requires k <= |lines| && DistinctItems(lines)
    ensures ReturnValue(lines, AllLines(lines)[k..]) == Subtotal(lines[k..])
    decreases |lines| - k
  {
    if k < |lines| {
      AllLinesValue(lines, k + 1);
      assert AllLines(lines)[k..][1..] == AllLines(lines)[k + 1..];
      assert lines[k..][1..] == lines[k + 1..];
      ValuedAtAllPrices(lines, k);
      NoneMatched(lines[..k] + lines[k + 1..], lines[k].item);
    }
  }

  /** Whatever the prices, distinct items returned line by line are a full return. */
  lemma {:induction false} AllLinesIsFullReturn(record: SaleRecord)
    requires DistinctItems(record.lines) && record.subtotal == Subtotal(record.lines)
    ensures MerchandiseResult(record, AllLines(record.lines)) == MerchandiseResult(record, []) == Ok(record.subtotal)
  {
    AllLinesValue(record.lines, 0);
    assert AllLines(record.lines)[0..] == AllLines(record.lines) && record.lines[0..] == record.lines;
    if record.lines == [] { assert record.subtotal == 0; }
  }

  /** An item rung up on two lines: one unit returned is valued at the price of both. */
  lemma {:induction false} RepeatedItemDoublesValue()
    ensures var lines := [LineItem(7, 1, 500, 0), LineItem(7, 1, 500, 0)];
      ReturnValue(lines, [ReturnLine(7, 1)]) == 1000
  {
    var lines := [LineItem(7, 1, 500, 0), LineItem(7, 1, 500, 0)];
    assert lines[1..] == [LineItem(7, 1, 500, 0)];
    assert MatchedPrice(lines[1..], 7) == 500;
    assert MatchedPrice(lines, 7) == 1000;
    assert [ReturnLine(7, 1)][1..] == [];
  }
}
