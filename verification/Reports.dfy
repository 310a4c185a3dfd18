/** The chart of accounts and the statements built from account balances. */
module Reports {
  import opened Wrappers
  import opened Journal

  datatype AccountType = Asset | Liability | Equity | Revenue | Expense

  datatype Account = Account(id: AccountId, code: string, name: string, kind: AccountType)

  datatype TrialBalanceRow = TrialBalanceRow(account: AccountId, code: string, name: string, kind: AccountType,
      balance: AccountBalance, signedBalance: int)

  datatype TrialBalance = TrialBalance(rows: seq<TrialBalanceRow>, totalDebits: int, totalCredits: int)

  datatype IncomeRow = IncomeRow(account: AccountId, name: string, kind: AccountType, amount: int)

  datatype IncomeStatement = IncomeStatement(rows: seq<IncomeRow>, totalRevenue: int, totalExpense: int, netIncome: int)

  datatype SheetRow = SheetRow(code: string, name: string, kind: AccountType, balance: int)

  datatype BalanceSheet = BalanceSheet(
    assets: seq<SheetRow>, liabilities: seq<SheetRow>, equity: seq<SheetRow>,
    totalAssets: int, totalLiabilities: int, totalEquity: int, netIncome: int)

  function NormalSide(kind: AccountType): EntrySide {
    if kind == Asset || kind == Expense then Debit else Credit
  }

  predicate IsPermanent(kind: AccountType) {
    kind != Revenue && kind != Expense
  }

  function SignedBalance(b: AccountBalance, kind: AccountType): int {
    if NormalSide(kind) == Debit then b.debits - b.credits else b.credits - b.debits
  }

  function Net(b: AccountBalance): int {
    b.credits - b.debits
  }

  /** The map behind the chart: ids are unique. Its iteration order is the order of the sequence. */
  ghost predicate DistinctIds(chart: seq<Account>) {
    forall i, j :: 0 <= i < j < |chart| ==> chart[i].id != chart[j].id
  }

  // ----- What the statements say -----

  type Books = AccountId -> AccountBalance

  function Row(acc: Account, books: Books): TrialBalanceRow {
    TrialBalanceRow(acc.id, acc.code, acc.name, acc.kind, books(acc.id), SignedBalance(books(acc.id), acc.kind))
  }

  function TrialRows(chart: seq<Account>, books: Books): seq<TrialBalanceRow> {
    if chart == [] then [] else [Row(chart[0], books)] + TrialRows(chart[1..], books)
  }

  function TotalDebits(chart: seq<Account>, books: Books): int {
    if chart == [] then 0 else books(chart[0].id).debits + TotalDebits(chart[1..], books)
  }

  function TotalCredits(chart: seq<Account>, books: Books): int {
    if chart == [] then 0 else books(chart[0].id).credits + TotalCredits(chart[1..], books)
  }

  /** The signed balances of one kind of account, added up. */
  function TotalOf(kind: AccountType, chart: seq<Account>, books: Books): int {
    if chart == [] then 0
    else
      (if chart[0].kind == kind then SignedBalance(books(chart[0].id), kind) else 0) + TotalOf(kind, chart[1..], books)
  }

  function NetIncome(chart: seq<Account>, books: Books): int {
    TotalOf(Revenue, chart, books) - TotalOf(Expense, chart, books)
  }

  /** Temporary accounts with something on them. */
  function IncomeRows(chart: seq<Account>, books: Books): seq<IncomeRow> {
    if chart == [] then []
    else
      var acc := chart[0];
      var amount := SignedBalance(books(acc.id), acc.kind);
      (if IsPermanent(acc.kind) || amount == 0 then [] else [IncomeRow(acc.id, acc.name, acc.kind, amount)])
          + IncomeRows(chart[1..], books)
  }

  function SheetRows(kind: AccountType, chart: seq<Account>, books: Books): seq<SheetRow> {
    if chart == [] then []
    else
      var acc := chart[0];
      (if acc.kind == kind then [SheetRow(acc.code, acc.name, kind, SignedBalance(books(acc.id), kind))] else [])
          + SheetRows(kind, chart[1..], books)
  }

  function TrialBalanceOf(chart: seq<Account>, books: Books): TrialBalance {
    TrialBalance(TrialRows(chart, books), TotalDebits(chart, books), TotalCredits(chart, books))
  }

  function IncomeStatementOf(chart: seq<Account>, books: Books): IncomeStatement {
    IncomeStatement(IncomeRows(chart, books), TotalOf(Revenue, chart, books), TotalOf(Expense, chart, books),
        NetIncome(chart, books))
  }

  function BalanceSheetOf(chart: seq<Account>, books: Books, netIncome: int): BalanceSheet {
    BalanceSheet(SheetRows(Asset, chart, books), SheetRows(Liability, chart, books), SheetRows(Equity, chart, books),
                 TotalOf(Asset, chart, books), TotalOf(Liability, chart, books), TotalOf(Equity, chart, books)
                     + netIncome, netIncome)
  }

  predicate TrialBalances(t: TrialBalance) { t.totalDebits == t.totalCredits }

  predicate SheetBalances(s: BalanceSheet) { s.totalAssets == s.totalLiabilities + s.totalEquity }

  /** The books a projection's map stands for. */
  function BooksOf(balances: map<AccountId, AccountBalance>): Books {
    (a: AccountId) => BalanceIn(balances, a)
  }

  /** The books the live shards stand for. */
  function LiveBooks(shards: seq<Shard>, hash: AccountId -> nat): Books
    requires |shards| == SHARDS
  {
    (a: AccountId) => BalanceOf(shards, hash, a)
  }

  // ----- The source's loops -----

  /** One account moves from the chart still to be read to the rows already made. */
  lemma {:induction false} TrialStep(chart: seq<Account>, i: nat, books: Books, done: seq<TrialBalanceRow>)
    requires i < |chart|
    ensures (done + [Row(chart[i], books)]) + TrialRows(chart[i + 1..], books) == done + TrialRows(chart[i..], books)
    ensures TotalDebits(chart[i..], books) == books(chart[i].id).debits + TotalDebits(chart[i + 1..], books)
    ensures TotalCredits(chart[i..], books) == books(chart[i].id).credits + TotalCredits(chart[i + 1..], books)
  {
    assert chart[i..][1..] == chart[i + 1..];
  }

  lemma {:induction false} IncomeStep(chart: seq<Account>, i: nat, books: Books, done: seq<IncomeRow>)
    requires i < |chart|
    ensures var acc := chart[i]; var amount := SignedBalance(books(acc.id), acc.kind);
      done + IncomeRows(chart[i..], books) ==
        (if IsPermanent(acc.kind) || amount == 0 then done
            else done + [IncomeRow(acc.id, acc.name, acc.kind, amount)]) + IncomeRows(chart[i + 1..], books)
  {
    assert chart[i..][1..] == chart[i + 1..];
  }

  lemma {:induction false} TotalStep(kind: AccountType, chart: seq<Account>, i: nat, books: Books)
    requires i < |chart|
    ensures TotalOf(kind, chart[i..], books)
         == (if chart[i].kind == kind then SignedBalance(books(chart[i].id), kind) else 0)
             + TotalOf(kind, chart[i + 1..], books)
  {
    assert chart[i..][1..] == chart[i + 1..];
  }

  lemma {:induction false} SheetStep(kind: AccountType, chart: seq<Account>, i: nat, books: Books, done: seq<SheetRow>)
    requires i < |chart|
    ensures var acc := chart[i];
      var own := if acc.kind == kind then [SheetRow(acc.code, acc.name, kind, SignedBalance(books(acc.id), kind))]
          else [];
      (done + own) + SheetRows(kind, chart[i + 1..], books) == done + SheetRows(kind, chart[i..], books)
    ensures chart[i].kind != kind
        ==> done + SheetRows(kind, chart[i + 1..], books) == done + SheetRows(kind, chart[i..], books)
  {
    assert chart[i..][1..] == chart[i + 1..];
  }

  method BuildTrialBalance(chart: seq<Account>, balances: map<AccountId, AccountBalance>) returns (t: TrialBalance)
    ensures t == TrialBalanceOf(chart, BooksOf(balances))
  {
    ghost var books := BooksOf(balances);
    var rows: seq<TrialBalanceRow> := [];
    var totalDebits, totalCredits := 0, 0;
    for i := 0 to |chart|
      invariant rows + TrialRows(chart[i..], books) == TrialRows(chart, books)
      invariant totalDebits + TotalDebits(chart[i..], books) == TotalDebits(chart, books)
      invariant totalCredits + TotalCredits(chart[i..], books) == TotalCredits(chart, books)
    {
      TrialStep(chart, i, books, rows);
      var acc := chart[i];
      var bal := BalanceIn(balances, acc.id);
      totalDebits := totalDebits + bal.debits;
      totalCredits := totalCredits + bal.credits;
      rows := rows + [TrialBalanceRow(acc.id, acc.code, acc.name, acc.kind, bal, SignedBalance(bal, acc.kind))];
    }
    t := TrialBalance(rows, totalDebits, totalCredits);
  }

  method BuildIncomeStatement(chart: seq<Account>, balances: map<AccountId, AccountBalance>)
    returns (s: IncomeStatement)
    ensures s == IncomeStatementOf(chart, BooksOf(balances))
  {
    ghost var books := BooksOf(balances);
    var rows: seq<IncomeRow> := [];
    var totalRevenue, totalExpense := 0, 0;
    for i := 0 to |chart|
      invariant rows + IncomeRows(chart[i..], books) == IncomeRows(chart, books)
      invariant totalRevenue + TotalOf(Revenue, chart[i..], books) == TotalOf(Revenue, chart, books)
      invariant totalExpense + TotalOf(Expense, chart[i..], books) == TotalOf(Expense, chart, books)
    {
      IncomeStep(chart, i, books, rows);
      TotalStep(Revenue, chart, i, books);
      TotalStep(Expense, chart, i, books);
      var acc := chart[i];
      if IsPermanent(acc.kind) { continue; }
      var amount := SignedBalance(BalanceIn(balances, acc.id), acc.kind);
      if amount == 0 { continue; }
      match acc.kind {
        case Revenue => totalRevenue := totalRevenue + amount;
        case _ => totalExpense := totalExpense + amount;
      }
      rows := rows + [IncomeRow(acc.id, acc.name, acc.kind, amount)];
    }
    s := IncomeStatement(rows, totalRevenue, totalExpense, totalRevenue - totalExpense);
  }

  method BuildBalanceSheet(chart: seq<Account>, balances: map<AccountId, AccountBalance>, netIncome: int)
    returns (s: BalanceSheet)
    ensures s == BalanceSheetOf(chart, BooksOf(balances), netIncome)
  {
    ghost var books := BooksOf(balances);
    var assets: seq<SheetRow>, liabilities: seq<SheetRow>, equity: seq<SheetRow> := [], [], [];
    var totalAssets, totalLiabilities, totalEquity := 0, 0, 0;
    for i := 0 to |chart|
      invariant assets + SheetRows(Asset, chart[i..], books) == SheetRows(Asset, chart, books)
      invariant liabilities + SheetRows(Liability, chart[i..], books) == SheetRows(Liability, chart, books)
      invariant equity + SheetRows(Equity, chart[i..], books) == SheetRows(Equity, chart, books)
      invariant totalAssets + TotalOf(Asset, chart[i..], books) == TotalOf(Asset, chart, books)
      invariant totalLiabilities + TotalOf(Liability, chart[i..], books) == TotalOf(Liability, chart, books)
      invariant totalEquity + TotalOf(Equity, chart[i..], books) == TotalOf(Equity, chart, books)
    {
      SheetStep(Asset, chart, i, books, assets);
      SheetStep(Liability, chart, i, books, liabilities);
      SheetStep(Equity, chart, i, books, equity);
      TotalStep(Asset, chart, i, books);
      TotalStep(Liability, chart, i, books);
      TotalStep(Equity, chart, i, books);
      var acc := chart[i];
      if !IsPermanent(acc.kind) { continue; }
      var balance := SignedBalance(BalanceIn(balances, acc.id), acc.kind);
      var row := SheetRow(acc.code, acc.name, acc.kind, balance);
      match acc.kind {
        case Asset => totalAssets, assets := totalAssets + balance, assets + [row];
        case Liability => totalLiabilities, liabilities := totalLiabilities + balance, liabilities + [row];
        case Equity => totalEquity, equity := totalEquity + balance, equity + [row];
      }
    }
    s := BalanceSheet(assets, liabilities, equity, totalAssets, totalLiabilities, totalEquity + netIncome, netIncome);
  }

  /** Reads the live balances instead of replaying. */
  method TrialBalanceNow(engine: JournalEngine, chart: seq<Account>) returns (t: TrialBalance)
    requires engine.Valid()
    ensures t == TrialBalanceOf(chart, LiveBooks(engine.shards, engine.hash))
  {
    ghost var books := LiveBooks(engine.shards, engine.hash);
    var rows: seq<TrialBalanceRow> := [];
    var totalDebits, totalCredits := 0, 0;
    for i := 0 to |chart|
      invariant rows + TrialRows(chart[i..], books) == TrialRows(chart, books)
      invariant totalDebits + TotalDebits(chart[i..], books) == TotalDebits(chart, books)
      invariant totalCredits + TotalCredits(chart[i..], books) == TotalCredits(chart, books)
    {
      TrialStep(chart, i, books, rows);
      var acc := chart[i];
      var bal := BalanceOf(engine.shards, engine.hash, acc.id);
      totalDebits := totalDebits + bal.debits;
      totalCredits := totalCredits + bal.credits;
      rows := rows + [TrialBalanceRow(acc.id, acc.code, acc.name, acc.kind, bal, SignedBalance(bal, acc.kind))];
    }
    t := TrialBalance(rows, totalDebits, totalCredits);
  }

  // ----- Closing entries -----

  /** One entry per temporary account with a balance, on the side opposite to its normal one. */
  function ZeroingEntries(chart: seq<Account>, books: Books): seq<LedgerEntry> {
    if chart == [] then [] else ZeroingOf(chart[0], books) + ZeroingEntries(chart[1..], books)
  }

  function ClosingEntries(chart: seq<Account>, books: Books, retainedEarnings: AccountId): seq<LedgerEntry> {
    var net := NetIncome(chart, books);
    ZeroingEntries(chart, books)
    + if net == 0 then []
        else [LedgerEntry(retainedEarnings, if net > 0 then Credit else Debit, if net < 0 then -net else net)]
  }

  /** What one account contributes to the net income. */
  function IncomeOf(acc: Account, books: Books): int {
    if acc.kind == Revenue then SignedBalance(books(acc.id), acc.kind)
    else if acc.kind == Expense then -SignedBalance(books(acc.id), acc.kind)
    else 0
  }

  function ZeroingOf(acc: Account, books: Books): seq<LedgerEntry> {
    var mag := SignedBalance(books(acc.id), acc.kind);
    if IsPermanent(acc.kind) || mag == 0 then []
    else [LedgerEntry(acc.id, if NormalSide(acc.kind) == Debit then Credit else Debit, mag)]
  }

  lemma {:induction false} ClosingStep(chart: seq<Account>, i: nat, books: Books)
    requires i < |chart|
    ensures ZeroingEntries(chart[..i + 1], books) == ZeroingEntries(chart[..i], books) + ZeroingOf(chart[i], books)
    ensures NetIncome(chart[..i + 1], books) == NetIncome(chart[..i], books) + IncomeOf(chart[i], books)
  {
    if i == 0 {
      assert chart[..1][1..] == [] && chart[..0] == [];
    } else {
      assert chart[..i + 1][1..] == chart[1..][..i] && chart[..i][1..] == chart[1..][..i - 1];
      ClosingStep(chart[1..], i - 1, books);
      assert ZeroingOf(chart[0], books) + (ZeroingEntries(chart[1..][..i - 1], books) + ZeroingOf(chart[i], books))
          == ZeroingOf(chart[0], books) + ZeroingEntries(chart[1..][..i - 1], books) + ZeroingOf(chart[i], books);
    }
  }

  /** The loop over the chart: the zeroing entries and the net income they add up to. */
  method ZeroTemporaries(chart: seq<Account>, shards: seq<Shard>, hash: AccountId -> nat)
    returns (entries: seq<LedgerEntry>, net: int)
    requires |shards| == SHARDS
    ensures entries == ZeroingEntries(chart, LiveBooks(shards, hash))
        && net == NetIncome(chart, LiveBooks(shards, hash))
  {
    ghost var books := LiveBooks(shards, hash);
    entries, net := [], 0;
    for i := 0 to |chart|
      invariant entries == ZeroingEntries(chart[..i], books)
      invariant net == NetIncome(chart[..i], books)
    {
      ClosingStep(chart, i, books);
      var acc := chart[i];
      if IsPermanent(acc.kind) { continue; }
      var mag := SignedBalance(BalanceOf(shards, hash, acc.id), acc.kind);
      if mag == 0 { continue; }
      var zeroSide := if NormalSide(acc.kind) == Debit then Credit else Debit;
      entries := entries + [LedgerEntry(acc.id, zeroSide, mag)];
      match acc.kind {
        case Revenue => net := net + mag;
        case _ => net := net - mag;
      }
    }
    assert chart[..|chart|] == chart;
  }

  method GenerateClosingEntries(engine: JournalEngine, chart: seq<Account>, retainedEarnings: AccountId)
    returns (entries: seq<LedgerEntry>)
    requires engine.Valid()
    ensures entries == ClosingEntries(chart, LiveBooks(engine.shards, engine.hash), retainedEarnings)
  {
    var net;
    entries, net := ZeroTemporaries(chart, engine.shards, engine.hash);
    if net != 0 {
      var side := if net > 0 then Credit else Debit;
      var amount := if net < 0 then -net else net;
      entries := entries + [LedgerEntry(retainedEarnings, side, amount)];
    }
  }

  /** Posts the generated entries, or nothing when there is nothing to close. */
  method PostClosingEntries(engine: JournalEngine, chart: seq<Account>, retainedEarnings: AccountId, txId: nat,
      period: string)
    returns (r: Result<Option<nat>, JournalError>)
    requires engine.Valid()
    modifies engine
    ensures engine.Valid()
    ensures var entries := ClosingEntries(chart, old(LiveBooks(engine.shards, engine.hash)), retainedEarnings);
      if entries == [] then r == Ok(None) && engine.State() == old(engine.State())
      else
        var (after, posted) := Post(old(engine.State()), engine.hash, txId, entries, period, "Period close", None);
        && engine.State() == after
        && r == (match posted case Ok(id) => Ok(Some(id)) case Err(e) => Err(e))
  {
    var entries := GenerateClosingEntries(engine, chart, retainedEarnings);
    if |entries| == 0 {
      return Ok(None);
    }
    var posted := engine.PostTransaction(txId, entries, period, "Period close", None);
    match posted {
      case Ok(id) => r := Ok(Some(id));
      case Err(e) => r := Err(e);
    }
  }
}
