/** What every line and total of the statements and the closing entries says, account by account. */
module Statements {
  import opened Sequences
  import opened Sums
  import opened Journal
  import opened Reports

  /** What the account stands at on the side that increases it. */
  function Standing(acc: Account, books: Books): int {
    match acc.kind
    case Asset => books(acc.id).debits - books(acc.id).credits
    case Expense => books(acc.id).debits - books(acc.id).credits
    case Liability => books(acc.id).credits - books(acc.id).debits
    case Equity => books(acc.id).credits - books(acc.id).debits
    case Revenue => books(acc.id).credits - books(acc.id).debits
  }

  function Standings(kind: AccountType, chart: seq<Account>, books: Books): (r: seq<int>)
    ensures |r| == |chart|
  {
    seq(|chart|, i requires 0 <= i < |chart| => if chart[i].kind == kind then Standing(chart[i], books) else 0)
  }

  function AllDebits(chart: seq<Account>, books: Books): (r: seq<int>)
    ensures |r| == |chart|
  {
    seq(|chart|, i requires 0 <= i < |chart| => books(chart[i].id).debits)
  }

  function AllCredits(chart: seq<Account>, books: Books): (r: seq<int>)
    ensures |r| == |chart|
  {
    seq(|chart|, i requires 0 <= i < |chart| => books(chart[i].id).credits)
  }

  // ----- Trial balance -----

  /** A row per account, with both sides and the standing; the totals are the sums of the two sides. */
  lemma {:induction false} TrialBalanceStates(chart: seq<Account>, books: Books)
    ensures var t := TrialBalanceOf(chart, books);
      && t.totalDebits == Sum(AllDebits(chart, books))
      && t.totalCredits == Sum(AllCredits(chart, books))
      && |t.rows| == |chart|
      && forall i :: 0 <= i < |chart| ==>
           var acc := chart[i];
           t.rows[i]
           == TrialBalanceRow(acc.id, acc.code, acc.name, acc.kind, books(acc.id), Standing(acc, books))
  {
    if chart != [] {
      TrialBalanceStates(chart[1..], books);
      assert AllDebits(chart, books)[1..] == AllDebits(chart[1..], books);
      assert AllCredits(chart, books)[1..] == AllCredits(chart[1..], books);
      forall i | 0 < i < |chart| ensures chart[i] == chart[1..][i - 1] {}
    }
  }

  // ----- Income statement -----

  lemma {:induction false} TotalIsSum(kind: AccountType, chart: seq<Account>, books: Books)
    ensures TotalOf(kind, chart, books) == Sum(Standings(kind, chart, books))
  {
    if chart != [] {
      TotalIsSum(kind, chart[1..], books);
      assert Standings(kind, chart, books)[1..] == Standings(kind, chart[1..], books);
    }
  }

  /** Revenue accounts make up the revenue, expense accounts the expense; net income is the difference. */
  lemma {:induction false} IncomeStates(chart: seq<Account>, books: Books)
    ensures var s := IncomeStatementOf(chart, books);
      && s.totalRevenue == Sum(Standings(Revenue, chart, books))
      && s.totalExpense == Sum(Standings(Expense, chart, books))
      && s.netIncome == s.totalRevenue - s.totalExpense
  {
    TotalIsSum(Revenue, chart, books);
    TotalIsSum(Expense, chart, books);
  }

  /** One account has a line exactly when it is a revenue or expense account with something on it. */
  lemma {:induction false} IncomeLine(acc: Account, books: Books)
    ensures var s := Standing(acc, books);
      IncomeRows([acc], books)
      == if (acc.kind == Revenue || acc.kind == Expense) && s != 0
         then [IncomeRow(acc.id, acc.name, acc.kind, s)] else []
  {
    assert [acc][1..] == [];
  }

  /** The lines are those of the accounts, in chart order. */
  lemma {:induction false} IncomeLinesAppend(a: seq<Account>, b: seq<Account>, books: Books)
    ensures IncomeRows(a + b, books) == IncomeRows(a, books) + IncomeRows(b, books)
  {
    if a == [] {
      assert a + b == b;
    } else {
      IncomeLinesAppend(a[1..], b, books);
      assert (a + b)[1..] == a[1..] + b && (a + b)[0] == a[0];
      var acc, amount := a[0], SignedBalance(books(a[0].id), a[0].kind);
      Concat(if IsPermanent(acc.kind) || amount == 0 then [] else [IncomeRow(acc.id, acc.name, acc.kind, amount)],
             IncomeRows(a[1..], books), IncomeRows(b, books));
    }
  }

  // ----- Balance sheet -----

  /** Each section totals its own accounts; net income is added to the equity. */
  lemma {:induction false} SheetStates(chart: seq<Account>, books: Books, netIncome: int)
    ensures var s := BalanceSheetOf(chart, books, netIncome);
      && s.totalAssets == Sum(Standings(Asset, chart, books))
      && s.totalLiabilities == Sum(Standings(Liability, chart, books))
      && s.totalEquity == Sum(Standings(Equity, chart, books)) + netIncome
      && s.netIncome == netIncome
  {
    TotalIsSum(Asset, chart, books);
    TotalIsSum(Liability, chart, books);
    TotalIsSum(Equity, chart, books);
  }

  lemma {:induction false} OneSheetRow(kind: AccountType, acc: Account, books: Books)
    ensures SheetRows(kind, [acc], books)
        == if acc.kind == kind then [SheetRow(acc.code, acc.name, kind, Standing(acc, books))] else []
  {
    assert [acc][1..] == [];
  }

  /** One account is listed in the section of its kind and in no other. */
  lemma {:induction false} SheetLine(acc: Account, books: Books, netIncome: int)
    ensures var s := BalanceSheetOf([acc], books, netIncome);
      var line := [SheetRow(acc.code, acc.name, acc.kind, Standing(acc, books))];
      && s.assets == (if acc.kind == Asset then line else [])
      && s.liabilities == (if acc.kind == Liability then line else [])
      && s.equity == (if acc.kind == Equity then line else [])
  {
    OneSheetRow(Asset, acc, books);
    OneSheetRow(Liability, acc, books);
    OneSheetRow(Equity, acc, books);
  }

  lemma {:induction false} SheetLinesAppend(kind: AccountType, a: seq<Account>, b: seq<Account>, books: Books)
    ensures SheetRows(kind, a + b, books) == SheetRows(kind, a, books) + SheetRows(kind, b, books)
  {
    if a == [] {
      assert a + b == b;
    } else {
      SheetLinesAppend(kind, a[1..], b, books);
      assert (a + b)[1..] == a[1..] + b && (a + b)[0] == a[0];
      var head := if a[0].kind == kind then [SheetRow(a[0].code, a[0].name, kind, SignedBalance(books(a[0].id), kind))]
          else [];
      Concat(head, SheetRows(kind, a[1..], books), SheetRows(kind, b, books));
    }
  }

  /** The sections of a chart are those of its parts, one after the other. */
  lemma {:induction false} SheetSections(a: seq<Account>, b: seq<Account>, books: Books, n: int)
    ensures var s, t, u := BalanceSheetOf(a, books, n), BalanceSheetOf(b, books, n), BalanceSheetOf(a + b, books, n);
      u.assets == s.assets + t.assets && u.liabilities == s.liabilities + t.liabilities
      && u.equity == s.equity + t.equity
  {
    SheetLinesAppend(Asset, a, b, books);
    SheetLinesAppend(Liability, a, b, books);
    SheetLinesAppend(Equity, a, b, books);
  }

  // ----- Closing entries -----

  /** A revenue account is debited, an expense account credited, with all that stands on it. */
  lemma {:induction false} ZeroingEntry(acc: Account, books: Books)
    ensures var s := Standing(acc, books);
      ZeroingEntries([acc], books)
      == if s == 0 then []
         else match acc.kind
           case Revenue => [LedgerEntry(acc.id, Debit, s)]
           case Expense => [LedgerEntry(acc.id, Credit, s)]
           case _ => []
  {
    assert [acc][1..] == [];
  }

  lemma {:induction false} ZeroingAppend(a: seq<Account>, b: seq<Account>, books: Books)
    ensures ZeroingEntries(a + b, books) == ZeroingEntries(a, books) + ZeroingEntries(b, books)
  {
    if a == [] {
      assert a + b == b;
    } else {
      ZeroingAppend(a[1..], b, books);
      assert (a + b)[1..] == a[1..] + b && (a + b)[0] == a[0];
      Concat(ZeroingOf(a[0], books), ZeroingEntries(a[1..], books), ZeroingEntries(b, books));
    }
  }

  /** After the zeroing entries comes one to retained earnings: a profit is credited, a loss debited. */
  lemma {:induction false} RetainedEntry(chart: seq<Account>, books: Books, retainedEarnings: AccountId)
    ensures var profit := Sum(Standings(Revenue, chart, books)) - Sum(Standings(Expense, chart, books));
      ClosingEntries(chart, books, retainedEarnings)
      == ZeroingEntries(chart, books)
         + (if profit > 0 then [LedgerEntry(retainedEarnings, Credit, profit)]
            else if profit < 0 then [LedgerEntry(retainedEarnings, Debit, -profit)]
            else [])
  {
    TotalIsSum(Revenue, chart, books);
    TotalIsSum(Expense, chart, books);
  }
}
