/** What the statements and the closing entries guarantee. */
module Closing {
  import opened Wrappers
  import opened Journal
  import opened JournalRuns
  import opened Reports

  /** Debits less credits over the chart, split by kind of account. */
  lemma {:induction false} AccountingEquation(chart: seq<Account>, books: Books)
    ensures TotalDebits(chart, books) - TotalCredits(chart, books)
         == TotalOf(Asset, chart, books) - TotalOf(Liability, chart, books) - TotalOf(Equity, chart, books)
             - NetIncome(chart, books)
  {
    if chart != [] { AccountingEquation(chart[1..], books); }
  }

  /** For every chart and every books: the balance sheet balances if and only if the trial balance does. */
  lemma {:induction false} StatementIdentity(chart: seq<Account>, books: Books)
    ensures SheetBalances(BalanceSheetOf(chart, books, IncomeStatementOf(chart, books).netIncome))
       <==> TrialBalances(TrialBalanceOf(chart, books))
  {
    AccountingEquation(chart, books);
  }

  // ----- A chart that has every account posted to -----

  predicate InChart(chart: seq<Account>, a: AccountId) {
    exists i :: 0 <= i < |chart| && chart[i].id == a
  }

  lemma {:induction false} NetChange(chart: seq<Account>, before: Books, after: Books, a: AccountId)
    requires DistinctIds(chart)
    requires forall b :: b != a ==> after(b) == before(b)
    ensures TotalDebits(chart, after) - TotalCredits(chart, after)
         == TotalDebits(chart, before) - TotalCredits(chart, before)
            + if InChart(chart, a) then Net(before(a)) - Net(after(a)) else 0
  {
    if chart != [] {
      var rest := chart[1..];
      NetChange(rest, before, after, a);
      if InChart(rest, a) {
        var i :| 0 <= i < |rest| && rest[i].id == a;
        assert chart[i + 1].id == a;
      }
      if InChart(chart, a) && chart[0].id != a {
        var i :| 0 <= i < |chart| && chart[i].id == a;
        assert rest[i - 1].id == a;
      }
    }
  }

  lemma {:induction false} EmptyBooks(chart: seq<Account>, books: Books)
    requires forall a :: books(a) == ZERO
    ensures TotalDebits(chart, books) == 0 == TotalCredits(chart, books)
  {
    if chart != [] { EmptyBooks(chart[1..], books); }
  }

  /** The trial balance of replayed legs is off by exactly what the legs themselves are off by. */
  lemma {:induction false} TrialBalanceOfLegs(chart: seq<Account>, legs: seq<PostedLeg>)
    requires DistinctIds(chart)
    requires forall l :: l in legs ==> InChart(chart, l.account)
    ensures TotalDebits(chart, BooksOf(Replay(legs))) - TotalCredits(chart, BooksOf(Replay(legs)))
        == Measure(legs, Signed)
  {
    if legs == [] {
      EmptyBooks(chart, BooksOf(Replay(legs)));
    } else {
      var n := |legs| - 1;
      assert forall l :: l in legs[..n] ==> l in legs;
      assert legs[n] in legs;
      TrialBalanceOfLegs(chart, legs[..n]);
      NetChange(chart, BooksOf(Replay(legs[..n])), BooksOf(Replay(legs)), legs[n].account);
    }
  }

  ghost predicate PostsInChart(chart: seq<Account>, c: Command) {
    c.PostCommand? ==> forall i :: 0 <= i < |c.entries| ==> InChart(chart, c.entries[i].account)
  }

  function Outside(chart: seq<Account>): PostedLeg -> int {
    (l: PostedLeg) => if InChart(chart, l.account) then 0 else 1
  }

  lemma {:induction false} WrittenAreLegs(shards: seq<Shard>, hash: AccountId -> nat, legs: seq<PostedLeg>,
      expected: Option<map<AccountId, nat>>)
    requires |shards| == SHARDS
    ensures Written(shards, hash, legs, expected) <= legs
    decreases |legs|
  {
    if legs != [] && PostLeg(shards, hash, legs[0], expected).Some? {
      WrittenAreLegs(PostLeg(shards, hash, legs[0], expected).value, hash, legs[1..], expected);
      assert legs == [legs[0]] + legs[1..];
    }
  }

  lemma {:induction false} CommandInChart(chart: seq<Account>, j: JournalState, hash: AccountId -> nat, c: Command)
    requires |j.shards| == SHARDS && PostsInChart(chart, c)
    ensures Measure(WrittenBy(j, hash, c), Outside(chart)) == 0
  {
    if c.PostCommand? {
      var legs := LegsOf(c.txId, c.entries, c.period, c.memo);
      WrittenAreLegs(j.shards, hash, legs, c.expected);
      assert forall k :: 0 <= k < |legs| ==> legs[k].account == c.entries[k].account;
    }
    MeasureZero(WrittenBy(j, hash, c), Outside(chart));
  }

  lemma {:induction false} HistoryInChart(chart: seq<Account>, hash: AccountId -> nat, commands: seq<Command>)
    requires forall i :: 0 <= i < |commands| ==> PostsInChart(chart, commands[i])
    ensures Measure(History(hash, commands), Outside(chart)) == 0
  {
    if commands != [] {
      var n := |commands| - 1;
      HistoryInChart(chart, hash, commands[..n]);
      MeasureAppend(History(hash, commands[..n]), WrittenBy(Run(hash, commands[..n]), hash, commands[n]),
          Outside(chart));
      CommandInChart(chart, Run(hash, commands[..n]), hash, commands[n]);
    }
  }

  lemma {:induction false} NoneOutside(chart: seq<Account>, legs: seq<PostedLeg>)
    ensures Measure(legs, Outside(chart)) >= 0
    ensures Measure(legs, Outside(chart)) == 0 ==> forall l :: l in legs ==> InChart(chart, l.account)
  {
    if legs != [] { NoneOutside(chart, legs[..|legs| - 1]); }
  }

  lemma {:induction false} SliceOf(legs: seq<PostedLeg>, period: Option<string>)
    ensures forall l :: l in Filtered(legs, period) ==> l in legs
  {
    if period.Some? && legs != [] {
      var n := |legs| - 1;
      SliceOf(legs[..n], period);
      forall l | l in InPeriod(legs, period.value) ensures l in legs {
        if l in Filtered(legs[..n], period) { assert l in legs[..n]; } else { assert l == legs[n]; }
      }
    }
  }

  lemma {:induction false} SliceInChart(chart: seq<Account>, hash: AccountId -> nat, commands: seq<Command>,
      period: Option<string>)
    requires forall i :: 0 <= i < |commands| ==> PostsInChart(chart, commands[i])
    ensures forall l :: l in Filtered(AllLegs(Run(hash, commands).shards), period) ==> InChart(chart, l.account)
  {
    var legs := AllLegs(Run(hash, commands).shards);
    RunKeeps(hash, commands, Outside(chart));
    HistoryInChart(chart, hash, commands);
    NoneOutside(chart, legs);
    SliceOf(legs, period);
  }

  /** Both statements balance exactly when the legs they are built from do. */
  lemma {:induction false} StatementsOfLegs(chart: seq<Account>, legs: seq<PostedLeg>)
    requires DistinctIds(chart) && forall l :: l in legs ==> InChart(chart, l.account)
    ensures var books := BooksOf(Replay(legs));
      && (TrialBalances(TrialBalanceOf(chart, books)) <==> Measure(legs, Signed) == 0)
      && (SheetBalances(BalanceSheetOf(chart, books, NetIncome(chart, books))) <==> Measure(legs, Signed) == 0)
  {
    TrialBalanceOfLegs(chart, legs);
    StatementIdentity(chart, BooksOf(Replay(legs)));
  }

  /**
   * In every state reached by posting to chart accounts, the rebuilt trial balance and balance
   * sheet balance, for all periods together or for one, exactly when the imbalances that
   * half-posted transactions left behind cancel out.
   */
  lemma {:induction false} StatementsBalanceIff(chart: seq<Account>, hash: AccountId -> nat, commands: seq<Command>,
      period: Option<string>)
    requires DistinctIds(chart) && forall i :: 0 <= i < |commands| ==> PostsInChart(chart, commands[i])
    ensures var books := BooksOf(Replay(Filtered(AllLegs(Run(hash, commands).shards), period)));
      && (TrialBalances(TrialBalanceOf(chart, books)) <==> TotalImbalance(hash, commands, period) == 0)
      && (SheetBalances(BalanceSheetOf(chart, books, NetIncome(chart, books)))
          <==> TotalImbalance(hash, commands, period) == 0)
  {
    var slice := Filtered(AllLegs(Run(hash, commands).shards), period);
    SliceInChart(chart, hash, commands, period);
    NetIsTotalImbalance(hash, commands, period);
    StatementsOfLegs(chart, slice);
  }

  /**
   * In every state reached by posting to chart accounts (guarded posts naming each account once),
   * the rebuilt trial balance and balance sheet balance, for all periods together and for each.
   */
  lemma {:induction false} ReachableStatementsBalance(chart: seq<Account>, hash: AccountId -> nat,
      commands: seq<Command>, period: Option<string>)
    requires DistinctIds(chart)
    requires forall i :: 0 <= i < |commands| ==> CarefulCommand(commands[i]) && PostsInChart(chart, commands[i])
    ensures var books := BooksOf(Replay(Filtered(AllLegs(Run(hash, commands).shards), period)));
      && TrialBalances(TrialBalanceOf(chart, books))
      && SheetBalances(BalanceSheetOf(chart, books, NetIncome(chart, books)))
  {
    BooksBalance(hash, commands, period);
    NetIsTotalImbalance(hash, commands, period);
    StatementsBalanceIff(chart, hash, commands, period);
  }

  lemma {:induction false} SameBooksSameTrial(chart: seq<Account>, a: Books, b: Books)
    requires forall id :: a(id) == b(id)
    ensures TrialBalanceOf(chart, a) == TrialBalanceOf(chart, b)
    ensures NetIncome(chart, a) == NetIncome(chart, b)
  {
    if chart != [] { SameBooksSameTrial(chart[1..], a, b); }
  }

  /** The trial balance read live has the rows and totals of the one rebuilt from the log. */
  lemma {:induction false} LiveTrialEqualsReplayed(chart: seq<Account>, hash: AccountId -> nat, commands: seq<Command>)
    ensures var shards := Run(hash, commands).shards;
      TrialBalanceOf(chart, LiveBooks(shards, hash)) == TrialBalanceOf(chart, BooksOf(Replay(AllLegs(shards))))
  {
    var shards := Run(hash, commands).shards;
    forall a ensures LiveBooks(shards, hash)(a) == BooksOf(Replay(AllLegs(shards)))(a) {
      LiveEqualsReplay(hash, commands, a);
    }
    SameBooksSameTrial(chart, LiveBooks(shards, hash), BooksOf(Replay(AllLegs(shards))));
  }

  // ----- Closing -----

  /** Credits less debits that the entries bring to one account. */
  function NetTo(entries: seq<LedgerEntry>, a: AccountId): int {
    if entries == [] then 0
    else
      (if entries[0].account != a then 0 else if entries[0].side == Credit then entries[0].amount
          else -entries[0].amount)
         + NetTo(entries[1..], a)
  }

  lemma {:induction false} NetToAppend(x: seq<LedgerEntry>, y: seq<LedgerEntry>, a: AccountId)
    ensures NetTo(x + y, a) == NetTo(x, a) + NetTo(y, a)
    ensures Debits(x + y) == Debits(x) + Debits(y)
    ensures Credits(x + y) == Credits(x) + Credits(y)
  {
    if x == [] {
      assert x + y == y;
    } else {
      assert (x + y)[1..] == x[1..] + y;
      NetToAppend(x[1..], y, a);
    }
  }

  predicate TemporaryIn(chart: seq<Account>, a: AccountId) {
    exists i :: 0 <= i < |chart| && chart[i].id == a && !IsPermanent(chart[i].kind)
  }

  lemma {:induction false} TemporaryTail(chart: seq<Account>, a: AccountId)
    requires chart != []
    ensures TemporaryIn(chart, a) <==> (chart[0].id == a && !IsPermanent(chart[0].kind)) || TemporaryIn(chart[1..], a)
    ensures DistinctIds(chart) && chart[0].id == a ==> !TemporaryIn(chart[1..], a)
  {
    if TemporaryIn(chart, a) {
      var i :| 0 <= i < |chart| && chart[i].id == a && !IsPermanent(chart[i].kind);
      if i > 0 { assert chart[1..][i - 1] == chart[i]; }
    }
    if TemporaryIn(chart[1..], a) {
      var i :| 0 <= i < |chart[1..]| && chart[1..][i].id == a && !IsPermanent(chart[1..][i].kind);
      assert chart[i + 1] == chart[1..][i];
    }
  }

  /** The zeroing entries cancel each temporary account and together are off by the net income. */
  lemma {:induction false} ZeroingNet(chart: seq<Account>, books: Books, a: AccountId)
    requires DistinctIds(chart)
    ensures NetTo(ZeroingEntries(chart, books), a) == if TemporaryIn(chart, a) then -Net(books(a)) else 0
    ensures Debits(ZeroingEntries(chart, books)) - Credits(ZeroingEntries(chart, books)) == NetIncome(chart, books)
    ensures ZeroingEntries(chart, books) == [] ==> NetIncome(chart, books) == 0
    ensures |ZeroingEntries(chart, books)| == 1 ==> NetIncome(chart, books) != 0
  {
    if chart != [] {
      ZeroingNet(chart[1..], books, a);
      TemporaryTail(chart, a);
      var head := ZeroingOf(chart[0], books);
      NetToAppend(head, ZeroingEntries(chart[1..], books), a);
      if head != [] { assert head[1..] == []; }
    }
  }

  /** Every temporary account is emptied and retained earnings takes the net income. */
  ghost function ClosingMove(chart: seq<Account>, books: Books, retainedEarnings: AccountId, a: AccountId): int {
    (if TemporaryIn(chart, a) then -Net(books(a)) else 0) + if a == retainedEarnings then NetIncome(chart, books) else 0
  }

  /** The closing entries are none, or a transaction that validates. */
  lemma {:induction false} ClosingEntriesBalance(chart: seq<Account>, books: Books, retainedEarnings: AccountId)
    requires DistinctIds(chart)
    ensures var entries := ClosingEntries(chart, books, retainedEarnings); entries == [] || Validate(entries).None?
    ensures forall a ::
        NetTo(ClosingEntries(chart, books, retainedEarnings), a) == ClosingMove(chart, books, retainedEarnings, a)
  {
    var zeroing, net := ZeroingEntries(chart, books), NetIncome(chart, books);
    var entries := ClosingEntries(chart, books, retainedEarnings);
    var last := entries[|zeroing|..];
    assert entries == zeroing + last;
    ZeroingNet(chart, books, retainedEarnings);
    NetToAppend(zeroing, last, retainedEarnings);
    assert last != [] ==> last[1..] == [];
    forall a ensures NetTo(entries, a) == ClosingMove(chart, books, retainedEarnings, a) {
      ZeroingNet(chart, books, a);
      NetToAppend(zeroing, last, a);
    }
  }

  lemma {:induction false} LegsNetTo(txId: nat, entries: seq<LedgerEntry>, period: string, memo: string, a: AccountId)
    ensures Measure(LegsOf(txId, entries, period, memo), CreditTo(a))
        - Measure(LegsOf(txId, entries, period, memo), DebitTo(a)) == NetTo(entries, a)
  {
    if entries != [] {
      var legs := LegsOf(txId, entries, period, memo);
      var rest := LegsOf(txId, entries[1..], period, memo);
      LegsNetTo(txId, entries[1..], period, memo, a);
      assert legs == [legs[0]] + rest;
      MeasureAppend([legs[0]], rest, CreditTo(a));
      MeasureAppend([legs[0]], rest, DebitTo(a));
      MeasureOne(legs[0], CreditTo(a));
      MeasureOne(legs[0], DebitTo(a));
    }
  }

  /** An accepted post moves every account's balance by exactly its own entries. */
  lemma {:induction false} PostMovesBalances(j: JournalState, hash: AccountId -> nat, txId: nat,
      entries: seq<LedgerEntry>, period: string, memo: string, a: AccountId)
    requires ShardsOk(j.shards, hash) && Refusal(j, hash, entries, period, None).None?
    ensures var (after, r) := Post(j, hash, txId, entries, period, memo, None);
      && r == Ok(txId) && ShardsOk(after.shards, hash)
      && Net(BalanceOf(after.shards, hash, a)) == Net(BalanceOf(j.shards, hash, a)) + NetTo(entries, a)
  {
    var legs := LegsOf(txId, entries, period, memo);
    AdmittedIsFresh(j, hash, txId, entries, period, memo, None);
    WritesAll(j.shards, hash, legs, None);
    PostLegsKeeps(j.shards, hash, legs, None, DebitTo(a));
    PostLegsKeeps(j.shards, hash, legs, None, CreditTo(a));
    LiveBalance(j.shards, hash, a);
    LiveBalance(PostLegs(j.shards, hash, legs, None).0, hash, a);
    LegsNetTo(txId, entries, period, memo, a);
  }

  lemma {:induction false} AllZero(chart: seq<Account>, books: Books)
    requires forall i :: 0 <= i < |chart| && !IsPermanent(chart[i].kind) ==> Net(books(chart[i].id)) == 0
    ensures ZeroingEntries(chart, books) == [] && NetIncome(chart, books) == 0
  {
    if chart != [] { AllZero(chart[1..], books); }
  }

  ghost predicate TemporariesZero(chart: seq<Account>, books: Books) {
    forall a :: TemporaryIn(chart, a) ==> Net(books(a)) == 0
  }

  /** What closing leaves on an account. */
  ghost function ClosedNet(chart: seq<Account>, books: Books, retainedEarnings: AccountId, a: AccountId): int {
    (if TemporaryIn(chart, a) then 0 else Net(books(a))) + if a == retainedEarnings then NetIncome(chart, books) else 0
  }

  lemma {:induction false} ZeroIffNoneLeft(chart: seq<Account>, books: Books, closed: Books,
      retainedEarnings: AccountId)
    requires forall a :: Net(closed(a)) == ClosedNet(chart, books, retainedEarnings, a)
    ensures TemporariesZero(chart, closed) <==> !TemporaryIn(chart, retainedEarnings) || NetIncome(chart, books) == 0
  {
    assert Net(closed(retainedEarnings)) == ClosedNet(chart, books, retainedEarnings, retainedEarnings);
  }

  /**
   * Posting the closing entries in an open period: retained earnings moves by exactly the net
   * income, permanent accounts do not move, and every temporary account is zero afterwards if and
   * only if retained earnings is not itself a temporary account of the chart or the net income is 0.
   */
  lemma {:induction false} ClosingZeroes(chart: seq<Account>, j: JournalState, hash: AccountId -> nat,
      retainedEarnings: AccountId, txId: nat, period: string)
    requires DistinctIds(chart) && ShardsOk(j.shards, hash) && !IsClosed(j.periods, period)
    requires ClosingEntries(chart, LiveBooks(j.shards, hash), retainedEarnings) != []
    ensures var books := LiveBooks(j.shards, hash);
      var (after, r) :=
          Post(j, hash, txId, ClosingEntries(chart, books, retainedEarnings), period, "Period close", None);
      var closed := LiveBooks(after.shards, hash);
      && r == Ok(txId)
      && (!TemporaryIn(chart, retainedEarnings)
          ==> Net(closed(retainedEarnings)) == Net(books(retainedEarnings)) + NetIncome(chart, books))
      && (forall a :: !TemporaryIn(chart, a) && a != retainedEarnings ==> Net(closed(a)) == Net(books(a)))
      && (TemporariesZero(chart, closed) <==> !TemporaryIn(chart, retainedEarnings) || NetIncome(chart, books) == 0)
  {
    var books := LiveBooks(j.shards, hash);
    var entries := ClosingEntries(chart, books, retainedEarnings);
    var net := NetIncome(chart, books);
    ClosingEntriesBalance(chart, books, retainedEarnings);
    var after := Post(j, hash, txId, entries, period, "Period close", None).0;
    var closed := LiveBooks(after.shards, hash);
    forall a ensures Net(closed(a)) == ClosedNet(chart, books, retainedEarnings, a) {
      PostMovesBalances(j, hash, txId, entries, period, "Period close", a);
    }
    PostMovesBalances(j, hash, txId, entries, period, "Period close", retainedEarnings);
    ZeroIffNoneLeft(chart, books, closed, retainedEarnings);
  }

  /** After a close into a permanent account, generating again gives nothing to post. */
  lemma {:induction false} ClosingTwiceIsEmpty(chart: seq<Account>, j: JournalState, hash: AccountId -> nat,
      retainedEarnings: AccountId, txId: nat, period: string)
    requires DistinctIds(chart) && ShardsOk(j.shards, hash) && !IsClosed(j.periods, period)
    requires !TemporaryIn(chart, retainedEarnings)
    requires ClosingEntries(chart, LiveBooks(j.shards, hash), retainedEarnings) != []
    ensures var after :=
        Post(j, hash, txId, ClosingEntries(chart, LiveBooks(j.shards, hash), retainedEarnings), period, "Period close",
            None).0;
      ClosingEntries(chart, LiveBooks(after.shards, hash), retainedEarnings) == []
  {
    ClosingZeroes(chart, j, hash, retainedEarnings, txId, period);
    var after :=
        Post(j, hash, txId, ClosingEntries(chart, LiveBooks(j.shards, hash), retainedEarnings), period, "Period close",
            None).0;
    var closed := LiveBooks(after.shards, hash);
    forall i | 0 <= i < |chart| && !IsPermanent(chart[i].kind) ensures Net(closed(chart[i].id)) == 0 {
      assert TemporaryIn(chart, chart[i].id);
    }
    AllZero(chart, closed);
  }

  // ----- The closed period's own statement -----

  /** The books of one period's slice of the logs. */
  function PeriodBooks(shards: seq<Shard>, period: string): Books {
    BooksOf(Replay(InPeriod(AllLegs(shards), period)))
  }

  function NetOf(a: AccountId): PostedLeg -> int {
    (l: PostedLeg) => if l.account == a then -Signed(l) else 0
  }

  function NetOfIn(a: AccountId, period: string): PostedLeg -> int {
    (l: PostedLeg) => if l.period == period then NetOf(a)(l) else 0
  }

  lemma {:induction false} NetMeasured(legs: seq<PostedLeg>, a: AccountId)
    ensures Measure(legs, NetOf(a)) == Measure(legs, CreditTo(a)) - Measure(legs, DebitTo(a))
  {
    if legs != [] { NetMeasured(legs[..|legs| - 1], a); }
  }

  lemma {:induction false} ReplayedNet(legs: seq<PostedLeg>, a: AccountId)
    ensures Net(BooksOf(Replay(legs))(a)) == Measure(legs, NetOf(a))
  {
    ReplayTotals(legs, a);
    NetMeasured(legs, a);
  }

  lemma {:induction false} PeriodNetMeasured(shards: seq<Shard>, period: string, a: AccountId)
    ensures Net(PeriodBooks(shards, period)(a)) == Measure(AllLegs(shards), NetOfIn(a, period))
  {
    var legs := AllLegs(shards);
    ReplayedNet(InPeriod(legs, period), a);
    SliceMeasure(legs, period, NetOf(a), NetOfIn(a, period));
  }

  lemma {:induction false} LegsNetIn(txId: nat, entries: seq<LedgerEntry>, period: string, memo: string, slice: string,
      a: AccountId)
    ensures Measure(LegsOf(txId, entries, period, memo), NetOfIn(a, slice))
        == if slice == period then NetTo(entries, a) else 0
  {
    var legs := LegsOf(txId, entries, period, memo);
    if slice == period {
      MeasureSame(legs, NetOfIn(a, slice), NetOf(a));
      NetMeasured(legs, a);
      LegsNetTo(txId, entries, period, memo, a);
    } else {
      MeasureZero(legs, NetOfIn(a, slice));
    }
  }

  /** A post moves an account within its own period by its entries, and in no other period. */
  lemma {:induction false} PostMovesPeriod(j: JournalState, hash: AccountId -> nat, txId: nat,
      entries: seq<LedgerEntry>, period: string, memo: string, slice: string, a: AccountId)
    requires ShardsOk(j.shards, hash) && Refusal(j, hash, entries, period, None).None?
    ensures var after := Post(j, hash, txId, entries, period, memo, None).0;
      Net(PeriodBooks(after.shards, slice)(a))
          == Net(PeriodBooks(j.shards, slice)(a)) + if slice == period then NetTo(entries, a) else 0
  {
    var legs := LegsOf(txId, entries, period, memo);
    var after := PostLegs(j.shards, hash, legs, None).0;
    AdmittedIsFresh(j, hash, txId, entries, period, memo, None);
    WritesAll(j.shards, hash, legs, None);
    PostLegsKeeps(j.shards, hash, legs, None, NetOfIn(a, slice));
    PeriodNetMeasured(j.shards, slice, a);
    PeriodNetMeasured(after, slice, a);
    LegsNetIn(txId, entries, period, memo, slice, a);
  }

  lemma {:induction false} IncomeEmptyIff(chart: seq<Account>, books: Books)
    ensures IncomeRows(chart, books) == [] <==> TemporariesZero(chart, books)
  {
    if chart != [] {
      var head, rest := chart[0], chart[1..];
      IncomeEmptyIff(rest, books);
      forall a ensures TemporaryIn(chart, a) <==> (a == head.id && !IsPermanent(head.kind)) || TemporaryIn(rest, a) {
        TemporaryTail(chart, a);
      }
    }
  }

  lemma {:induction false} EmptiedIff(chart: seq<Account>, before: Books, after: Books, moves: AccountId -> int)
    requires forall a :: Net(after(a)) == Net(before(a)) + moves(a)
    ensures IncomeRows(chart, after) == [] <==> forall a :: TemporaryIn(chart, a) ==> Net(before(a)) + moves(a) == 0
  {
    IncomeEmptyIff(chart, after);
  }

  /** Closing takes the balances of all periods and posts them into one; no other period's books change. */
  lemma {:induction false} ClosingMovesPeriod(chart: seq<Account>, j: JournalState, hash: AccountId -> nat,
      retainedEarnings: AccountId, txId: nat, period: string, slice: string, a: AccountId)
    requires DistinctIds(chart) && ShardsOk(j.shards, hash) && !IsClosed(j.periods, period)
    requires ClosingEntries(chart, LiveBooks(j.shards, hash), retainedEarnings) != []
    ensures var books := LiveBooks(j.shards, hash);
      var after := Post(j, hash, txId, ClosingEntries(chart, books, retainedEarnings), period, "Period close", None).0;
      Net(PeriodBooks(after.shards, slice)(a))
        == Net(PeriodBooks(j.shards, slice)(a))
            + if slice == period then ClosingMove(chart, books, retainedEarnings, a) else 0
  {
    var books := LiveBooks(j.shards, hash);
    ClosingEntriesBalance(chart, books, retainedEarnings);
    PostMovesPeriod(j, hash, txId, ClosingEntries(chart, books, retainedEarnings), period, "Period close", slice, a);
  }

  /** The period holds all of the account's balance that closing moves. */
  ghost predicate AllInPeriod(chart: seq<Account>, shards: seq<Shard>, hash: AccountId -> nat,
      retainedEarnings: AccountId, period: string, a: AccountId)
    requires |shards| == SHARDS
  {
    Net(PeriodBooks(shards, period)(a)) + ClosingMove(chart, LiveBooks(shards, hash), retainedEarnings, a) == 0
  }

  /**
   * The income statement of the period closed into is empty afterwards if and only if that period
   * held all that closing moved off, or onto, each temporary account.
   */
  lemma {:induction false} PeriodEmptiedIff(chart: seq<Account>, j: JournalState, hash: AccountId -> nat,
      retainedEarnings: AccountId, txId: nat, period: string)
    requires DistinctIds(chart) && ShardsOk(j.shards, hash) && !IsClosed(j.periods, period)
    requires ClosingEntries(chart, LiveBooks(j.shards, hash), retainedEarnings) != []
    ensures var after :=
        Post(j, hash, txId, ClosingEntries(chart, LiveBooks(j.shards, hash), retainedEarnings), period, "Period close",
            None).0;
      IncomeRows(chart, PeriodBooks(after.shards, period)) == []
      <==> forall a :: TemporaryIn(chart, a) ==> AllInPeriod(chart, j.shards, hash, retainedEarnings, period, a)
  {
    var books := LiveBooks(j.shards, hash);
    var after := Post(j, hash, txId, ClosingEntries(chart, books, retainedEarnings), period, "Period close", None).0;
    var moves := (a: AccountId) => ClosingMove(chart, books, retainedEarnings, a);
    var was, now := PeriodBooks(j.shards, period), PeriodBooks(after.shards, period);
    forall a ensures Net(now(a)) == Net(was(a)) + moves(a) {
      ClosingMovesPeriod(chart, j, hash, retainedEarnings, txId, period, period, a);
    }
    EmptiedIff(chart, was, now, moves);
    assert forall a :: AllInPeriod(chart, j.shards, hash, retainedEarnings, period, a) <==> Net(was(a)) + moves(a) == 0;
  }

  /** With a permanent retained earnings: exactly when the account has no balance outside the period. */
  lemma {:induction false} AllInPeriodIff(chart: seq<Account>, shards: seq<Shard>, hash: AccountId -> nat,
      retainedEarnings: AccountId, period: string, a: AccountId)
    requires |shards| == SHARDS && TemporaryIn(chart, a) && !TemporaryIn(chart, retainedEarnings)
    ensures AllInPeriod(chart, shards, hash, retainedEarnings, period, a)
       <==> Net(LiveBooks(shards, hash)(a)) == Net(PeriodBooks(shards, period)(a))
  {
  }
}
