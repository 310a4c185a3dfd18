/** What consolidation and elimination guarantee. */
module Elimination {
  import opened Wrappers
  import opened Reports
  import opened Consolidation
  import J = Journal
  import C = Closing

  // ----- Consolidation -----

  lemma {:induction false} InsertKeepsRows(x: ConsolidatedRow, s: seq<ConsolidatedRow>)
    ensures multiset(InsertRow(x, s)) == multiset{x} + multiset(s)
    ensures Debits(InsertRow(x, s)) == x.debits + Debits(s) && Credits(InsertRow(x, s)) == x.credits + Credits(s)
  {
    if s != [] && !RowBefore(x, s[0]) {
      InsertKeepsRows(x, s[1..]);
      assert s == [s[0]] + s[1..];
    }
  }

  ghost predicate RowsSorted(s: seq<ConsolidatedRow>) {
    forall i, j :: 0 <= i < j < |s| ==> RowBefore(s[i], s[j])
  }

  lemma {:induction false} InsertSorts(x: ConsolidatedRow, s: seq<ConsolidatedRow>)
    requires RowsSorted(s)
    ensures RowsSorted(InsertRow(x, s))
  {
    if s != [] && !RowBefore(x, s[0]) {
      InsertSorts(x, s[1..]);
      InsertKeepsRows(x, s[1..]);
      var t := InsertRow(x, s[1..]);
      forall r | r in multiset(t) ensures RowBefore(s[0], r) {
        if r != x {
          assert r in s[1..];
          var k :| 0 <= k < |s[1..]| && s[1..][k] == r;
          assert RowBefore(s[0], s[k + 1]);
        }
      }
      forall j | 0 <= j < |t| ensures RowBefore(s[0], t[j]) { assert t[j] in multiset(t); }
    }
  }

  /** Sorting loses no row and changes no total. */
  lemma {:induction false} SortKeepsRows(s: seq<ConsolidatedRow>)
    ensures RowsSorted(SortRows(s)) && multiset(SortRows(s)) == multiset(s)
    ensures Debits(SortRows(s)) == Debits(s) && Credits(SortRows(s)) == Credits(s)
  {
    if s != [] {
      SortKeepsRows(s[1..]);
      InsertKeepsRows(s[0], SortRows(s[1..]));
      InsertSorts(s[0], SortRows(s[1..]));
      assert s == [s[0]] + s[1..];
    }
  }

  predicate EntityBalanced(t: EntityTrialBalance) {
    Debits(RowsOf(t.entity, t.rows)) == Credits(RowsOf(t.entity, t.rows))
  }

  /** A group of balanced books is balanced, and its totals are those of the sorted rows. */
  lemma {:induction false} GroupBalances(inputs: seq<EntityTrialBalance>)
    ensures var g := ConsolidateResult(inputs);
      && RowsSorted(g.rows) && multiset(g.rows) == multiset(Union(inputs))
      && g.totalDebits == Debits(g.rows) && g.totalCredits == Credits(g.rows)
      && ((forall i :: 0 <= i < |inputs| ==> EntityBalanced(inputs[i])) ==> g.totalDebits == g.totalCredits)
  {
    SortKeepsRows(Union(inputs));
    if forall i :: 0 <= i < |inputs| ==> EntityBalanced(inputs[i]) { UnionBalances(inputs); }
  }

  lemma {:induction false} UnionBalances(inputs: seq<EntityTrialBalance>)
    requires forall i :: 0 <= i < |inputs| ==> EntityBalanced(inputs[i])
    ensures Debits(Union(inputs)) == Credits(Union(inputs))
  {
    if inputs != [] {
      UnionBalances(inputs[1..]);
      TotalsAppend(RowsOf(inputs[0].entity, inputs[0].rows), Union(inputs[1..]));
    }
  }

  // ----- One elimination -----

  lemma {:induction false} DebitsUpdate(rows: seq<ConsolidatedRow>, i: nat, r: ConsolidatedRow)
    requires i < |rows|
    ensures Debits(rows[i := r]) == Debits(rows) - rows[i].debits + r.debits
    ensures Credits(rows[i := r]) == Credits(rows) - rows[i].credits + r.credits
  {
    if i == 0 {
      assert rows[i := r][1..] == rows[1..];
    } else {
      assert rows[i := r][1..] == rows[1..][i - 1 := r];
      DebitsUpdate(rows[1..], i - 1, r);
    }
  }

  /** Same accounts of the same kinds, in the same places. */
  ghost predicate SameKeys(a: seq<ConsolidatedRow>, b: seq<ConsolidatedRow>) {
    |a| == |b|
        && forall i ::
            0 <= i < |a| ==> a[i].entity == b[i].entity && a[i].account == b[i].account && a[i].kind == b[i].kind
  }

  lemma {:induction false} SamePosition(a: seq<ConsolidatedRow>, b: seq<ConsolidatedRow>, entity: EntityId,
      account: J.AccountId)
    requires SameKeys(a, b)
    ensures Position(a, entity, account) == Position(b, entity, account)
  {
    if a != [] {
      assert SameKeys(a[1..], b[1..]);
      SamePosition(a[1..], b[1..], entity, account);
    }
  }

  lemma {:induction false} ReduceTotals(rows: seq<ConsolidatedRow>, i: nat, j: nat, amount: int)
    requires i < |rows| && j < |rows|
    ensures SameKeys(rows, Reduce(rows, i, j, amount))
    ensures Debits(Reduce(rows, i, j, amount)) == Debits(rows) - amount
    ensures Credits(Reduce(rows, i, j, amount)) == Credits(rows) - amount
  {
    var once := rows[i := rows[i].(debits := rows[i].debits - amount)];
    DebitsUpdate(rows, i, once[i]);
    DebitsUpdate(once, j, once[j].(credits := once[j].credits - amount));
  }

  lemma {:induction false} PairTotals(x: J.LedgerEntry, y: J.LedgerEntry)
    requires x.side == J.Credit && y.side == J.Debit
    ensures J.Debits([x, y]) == y.amount && J.Credits([x, y]) == x.amount
  {
    assert [x, y][1..] == [y] && [y][1..] == [];
    assert J.Debits([y]) == y.amount && J.Credits([y]) == 0;
  }

  lemma {:induction false} OneStep(p: Progress, pair: EliminationPair)
    requires EliminateOne(p, pair).Ok?
    ensures var q := EliminateOne(p, pair).value;
      && SameKeys(p.rows, q.rows) && p.total <= q.total
      && Debits(q.rows) == Debits(p.rows) - (q.total - p.total)
      && Credits(q.rows) == Credits(p.rows) - (q.total - p.total)
      && J.Debits(q.entries) == J.Debits(p.entries) + (q.total - p.total)
      && J.Credits(q.entries) == J.Credits(p.entries) + (q.total - p.total)
  {
    var i := Position(p.rows, pair.fromEntity, pair.fromAccount).value;
    var j := Position(p.rows, pair.toEntity, pair.toAccount).value;
    var amount := Overlap(p.rows, i, j);
    if amount != 0 {
      ReduceTotals(p.rows, i, j, amount);
      var x, y := J.LedgerEntry(pair.fromAccount, J.Credit, amount), J.LedgerEntry(pair.toAccount, J.Debit, amount);
      C.NetToAppend(p.entries, [x, y], 0);
      PairTotals(x, y);
    }
  }

  // ----- The main results: any pairs -----

  lemma {:induction false} AllSteps(p: Progress, pairs: seq<EliminationPair>)
    requires EliminateAll(p, pairs).Ok?
    ensures var q := EliminateAll(p, pairs).value;
      && SameKeys(p.rows, q.rows) && p.total <= q.total
      && Debits(q.rows) == Debits(p.rows) - (q.total - p.total)
      && Credits(q.rows) == Credits(p.rows) - (q.total - p.total)
      && J.Debits(q.entries) == J.Debits(p.entries) + (q.total - p.total)
      && J.Credits(q.entries) == J.Credits(p.entries) + (q.total - p.total)
    decreases |pairs|
  {
    if pairs != [] {
      OneStep(p, pairs[0]);
      AllSteps(EliminateOne(p, pairs[0]).value, pairs[1..]);
    }
  }

  /**
   * Whatever the pairs: total debits and total credits fall by the same amount, the amount
   * eliminated, and the parent entries debit and credit exactly that much. So a balanced group
   * stays balanced.
   */
  lemma {:induction false} EliminationBalances(ctb: ConsolidatedTrialBalance, pairs: seq<EliminationPair>)
    requires EliminateResult(ctb, pairs).Ok?
    ensures var r := EliminateResult(ctb, pairs).value;
      && r.totalEliminated >= 0
      && r.trialBalance.totalDebits == Debits(ctb.rows) - r.totalEliminated
      && r.trialBalance.totalCredits == Credits(ctb.rows) - r.totalEliminated
      && J.Debits(r.entries) == r.totalEliminated == J.Credits(r.entries)
      && SameKeys(ctb.rows, r.trialBalance.rows)
  {
    AllSteps(Progress(ctb.rows, [], 0), pairs);
  }

  /** The pair names a row that is there. */
  ghost predicate Known(rows: seq<ConsolidatedRow>, pair: EliminationPair) {
    Position(rows, pair.fromEntity, pair.fromAccount).Some? && Position(rows, pair.toEntity, pair.toAccount).Some?
  }

  /** Elimination fails exactly when some pair names a row that is not there. */
  lemma {:induction false} FailsIffUnknown(p: Progress, pairs: seq<EliminationPair>)
    ensures EliminateAll(p, pairs).Ok? <==> forall k :: 0 <= k < |pairs| ==> Known(p.rows, pairs[k])
    decreases |pairs|
  {
    if pairs != [] {
      if EliminateOne(p, pairs[0]).Ok? {
        var q := EliminateOne(p, pairs[0]).value;
        OneStep(p, pairs[0]);
        FailsIffUnknown(q, pairs[1..]);
        forall k | 0 <= k < |pairs| ensures Known(q.rows, pairs[k]) == Known(p.rows, pairs[k]) {
          SamePosition(p.rows, q.rows, pairs[k].fromEntity, pairs[k].fromAccount);
          SamePosition(p.rows, q.rows, pairs[k].toEntity, pairs[k].toAccount);
        }
        assert forall k :: 1 <= k < |pairs| ==> pairs[k] == pairs[1..][k - 1];
      } else {
        assert !Known(p.rows, pairs[0]);
      }
    }
  }

  // ----- Pairs with the right directions -----

  /** A debit-normal Due-From against a credit-normal Due-To. */
  ghost predicate Directed(rows: seq<ConsolidatedRow>, pair: EliminationPair) {
    && Known(rows, pair)
    && NormalSide(rows[Position(rows, pair.fromEntity, pair.fromAccount).value].kind) == J.Debit
    && NormalSide(rows[Position(rows, pair.toEntity, pair.toAccount).value].kind) == J.Credit
  }

  /** No signed balance rises, and none that was not negative becomes negative. */
  ghost predicate Shrinks(before: seq<ConsolidatedRow>, after: seq<ConsolidatedRow>) {
    && SameKeys(before, after)
    && forall i :: 0 <= i < |before| ==>
         if Signed(before[i]) < 0 then Signed(after[i]) == Signed(before[i])
         else 0 <= Signed(after[i]) <= Signed(before[i])
  }

  /** Nothing is left to eliminate for the pair. */
  ghost predicate Settled(rows: seq<ConsolidatedRow>, pair: EliminationPair) {
    && Known(rows, pair)
    && Overlap(rows, Position(rows, pair.fromEntity, pair.fromAccount).value,
        Position(rows, pair.toEntity, pair.toAccount).value) == 0
  }

  lemma {:induction false} DirectedStep(p: Progress, pair: EliminationPair)
    requires Directed(p.rows, pair)
    ensures EliminateOne(p, pair).Ok?
    ensures var q := EliminateOne(p, pair).value; Shrinks(p.rows, q.rows) && Settled(q.rows, pair)
  {
    var q := EliminateOne(p, pair).value;
    OneStep(p, pair);
    SamePosition(p.rows, q.rows, pair.fromEntity, pair.fromAccount);
    SamePosition(p.rows, q.rows, pair.toEntity, pair.toAccount);
  }

  lemma {:induction false} SettledStays(a: seq<ConsolidatedRow>, b: seq<ConsolidatedRow>, pair: EliminationPair)
    requires Shrinks(a, b) && Settled(a, pair)
    ensures Settled(b, pair)
  {
    SamePosition(a, b, pair.fromEntity, pair.fromAccount);
    SamePosition(a, b, pair.toEntity, pair.toAccount);
  }

  lemma {:induction false} ShrinksTwice(a: seq<ConsolidatedRow>, b: seq<ConsolidatedRow>, c: seq<ConsolidatedRow>)
    requires Shrinks(a, b) && Shrinks(b, c)
    ensures Shrinks(a, c)
  {
  }

  lemma {:induction false} DirectedStays(a: seq<ConsolidatedRow>, b: seq<ConsolidatedRow>, pair: EliminationPair)
    requires SameKeys(a, b) && Directed(a, pair)
    ensures Directed(b, pair)
  {
    SamePosition(a, b, pair.fromEntity, pair.fromAccount);
    SamePosition(a, b, pair.toEntity, pair.toAccount);
  }

  lemma {:induction false} DirectedRun(p: Progress, pairs: seq<EliminationPair>)
    requires forall k :: 0 <= k < |pairs| ==> Directed(p.rows, pairs[k])
    ensures EliminateAll(p, pairs).Ok?
    ensures var q := EliminateAll(p, pairs).value;
      Shrinks(p.rows, q.rows) && forall k :: 0 <= k < |pairs| ==> Settled(q.rows, pairs[k])
    decreases |pairs|
  {
    if pairs != [] {
      DirectedStep(p, pairs[0]);
      var m := EliminateOne(p, pairs[0]).value;
      var rest := pairs[1..];
      forall k | 0 <= k < |rest| ensures Directed(m.rows, rest[k]) {
        assert rest[k] == pairs[k + 1];
        DirectedStays(p.rows, m.rows, rest[k]);
      }
      DirectedRun(m, rest);
      var q := EliminateAll(m, rest).value;
      SettledStays(m.rows, q.rows, pairs[0]);
      ShrinksTwice(p.rows, m.rows, q.rows);
      forall k | 0 <= k < |pairs| ensures Settled(q.rows, pairs[k]) {
        if k > 0 { assert pairs[k] == rest[k - 1]; }
      }
    }
  }

  lemma {:induction false} SettledRun(p: Progress, pairs: seq<EliminationPair>)
    requires forall k :: 0 <= k < |pairs| ==> Settled(p.rows, pairs[k])
    ensures EliminateAll(p, pairs) == Ok(p)
    decreases |pairs|
  {
    if pairs != [] {
      assert EliminateOne(p, pairs[0]) == Ok(p);
      assert forall k :: 0 <= k < |pairs[1..]| ==> pairs[1..][k] == pairs[k + 1];
      SettledRun(p, pairs[1..]);
    }
  }

  /**
   * With directed pairs elimination succeeds, drives no balance below zero and raises none, and a
   * second run with the same pairs finds nothing to eliminate.
   */
  lemma {:induction false} DirectedElimination(ctb: ConsolidatedTrialBalance, pairs: seq<EliminationPair>)
    requires forall k :: 0 <= k < |pairs| ==> Directed(ctb.rows, pairs[k])
    ensures EliminateResult(ctb, pairs).Ok?
    ensures var once := EliminateResult(ctb, pairs).value.trialBalance;
      && Shrinks(ctb.rows, once.rows)
      && EliminateResult(once, pairs) == Ok(EliminationResult(once, [], 0))
  {
    DirectedRun(Progress(ctb.rows, [], 0), pairs);
    var q := EliminateAll(Progress(ctb.rows, [], 0), pairs).value;
    SettledRun(Progress(q.rows, [], 0), pairs);
  }

  /** A run takes nothing off the rows exactly when nothing is left to eliminate for any pair. */
  lemma {:induction false} NothingTakenIff(p: Progress, pairs: seq<EliminationPair>)
    ensures EliminateAll(p, pairs).Ok? && EliminateAll(p, pairs).value.total == p.total
       <==> forall k :: 0 <= k < |pairs| ==> Settled(p.rows, pairs[k])
    decreases |pairs|
  {
    if forall k :: 0 <= k < |pairs| ==> Settled(p.rows, pairs[k]) {
      SettledRun(p, pairs);
    } else if EliminateAll(p, pairs).Ok? {
      var next := EliminateOne(p, pairs[0]).value;
      OneStep(p, pairs[0]);
      AllSteps(next, pairs[1..]);
      if Settled(p.rows, pairs[0]) {
        NothingTakenIff(p, pairs[1..]);
        var k :| 0 <= k < |pairs| && !Settled(p.rows, pairs[k]);
        assert pairs[1..][k - 1] == pairs[k];
      }
    }
  }

  /**
   * Whatever the pairs, and whatever rows earlier runs left: a run finds nothing to eliminate and
   * changes nothing if and only if no pair's balances overlap before it.
   */
  lemma {:induction false} EmptyRunIff(ctb: ConsolidatedTrialBalance, pairs: seq<EliminationPair>)
    requires ctb.totalDebits == Debits(ctb.rows) && ctb.totalCredits == Credits(ctb.rows)
    ensures EliminateResult(ctb, pairs) == Ok(EliminationResult(ctb, [], 0))
       <==> forall k :: 0 <= k < |pairs| ==> Settled(ctb.rows, pairs[k])
    ensures EliminateResult(ctb, pairs) == Ok(EliminationResult(ctb, [], 0))
       <==> EliminateResult(ctb, pairs).Ok? && EliminateResult(ctb, pairs).value.totalEliminated == 0
  {
    var p := Progress(ctb.rows, [], 0);
    NothingTakenIff(p, pairs);
    if forall k :: 0 <= k < |pairs| ==> Settled(ctb.rows, pairs[k]) {
      SettledRun(p, pairs);
    }
  }

  /** A second run with the same pairs is empty exactly when the first left no pair an overlap. */
  lemma {:induction false} SecondRunEmptyIff(ctb: ConsolidatedTrialBalance, pairs: seq<EliminationPair>)
    requires EliminateResult(ctb, pairs).Ok?
    ensures var once := EliminateResult(ctb, pairs).value.trialBalance;
      && EliminateResult(once, pairs).Ok?
      && (EliminateResult(once, pairs) == Ok(EliminationResult(once, [], 0))
          <==> forall k :: 0 <= k < |pairs| ==> Settled(once.rows, pairs[k]))
      && (EliminateResult(once, pairs).value.totalEliminated > 0
          <==> exists k :: 0 <= k < |pairs| && !Settled(once.rows, pairs[k]))
  {
    var p := Progress(ctb.rows, [], 0);
    var once := EliminateResult(ctb, pairs).value.trialBalance;
    AllSteps(p, pairs);
    FailsIffUnknown(p, pairs);
    forall k | 0 <= k < |pairs| ensures Known(once.rows, pairs[k]) {
      SamePosition(p.rows, once.rows, pairs[k].fromEntity, pairs[k].fromAccount);
      SamePosition(p.rows, once.rows, pairs[k].toEntity, pairs[k].toAccount);
    }
    FailsIffUnknown(Progress(once.rows, [], 0), pairs);
    EmptyRunIff(once, pairs);
    AllSteps(Progress(once.rows, [], 0), pairs);
  }

  /** The row at the smaller balance of the pair is reduced on its normal side. */
  ghost predicate SmallerSideShrinks(rows: seq<ConsolidatedRow>, i: nat, j: nat)
    requires i < |rows| && j < |rows|
  {
    && i != j
    && ((Signed(rows[i]) <= Signed(rows[j]) && NormalSide(rows[i].kind) == J.Debit)
        || (Signed(rows[j]) <= Signed(rows[i]) && NormalSide(rows[j].kind) == J.Credit))
  }

  /** One elimination leaves nothing for a second one exactly when the smaller side had the right direction. */
  lemma {:induction false} SettlesIff(p: Progress, pair: EliminationPair)
    requires Known(p.rows, pair)
    ensures var i := Position(p.rows, pair.fromEntity, pair.fromAccount).value;
      var j := Position(p.rows, pair.toEntity, pair.toAccount).value;
      && EliminateOne(p, pair).Ok?
      && (Settled(EliminateOne(p, pair).value.rows, pair)
          <==> Overlap(p.rows, i, j) == 0 || SmallerSideShrinks(p.rows, i, j))
  {
    OneStep(p, pair);
    SamePosition(p.rows, EliminateOne(p, pair).value.rows, pair.fromEntity, pair.fromAccount);
    SamePosition(p.rows, EliminateOne(p, pair).value.rows, pair.toEntity, pair.toAccount);
  }

  /** Against the direction: a credit-normal Due-From grows, and a second run eliminates again. */
  lemma {:induction false} UndirectedGrows()
    ensures var rows := [ConsolidatedRow(1, 1, Liability, 0, 5), ConsolidatedRow(2, 2, Liability, 0, 9)];
      var pair := EliminationPair(1, 1, 2, 2);
      var q := EliminateAll(Progress(rows, [], 0), [pair]);
      q.Ok? && Signed(q.value.rows[0]) == 10 && !Settled(q.value.rows, pair)
  {
    var rows := [ConsolidatedRow(1, 1, Liability, 0, 5), ConsolidatedRow(2, 2, Liability, 0, 9)];
    var pair := EliminationPair(1, 1, 2, 2);
    assert Position(rows[1..], 2, 2) == Some(0);
    assert Position(rows, 1, 1) == Some(0) && Position(rows, 2, 2) == Some(1);
    var p := Progress(rows, [], 0);
    var q := EliminateOne(p, pair).value;
    assert [pair][1..] == [];
    assert EliminateAll(p, [pair]) == Ok(q);
    OneStep(p, pair);
    SamePosition(rows, q.rows, 1, 1);
    SamePosition(rows, q.rows, 2, 2);
  }

  // ----- Derived pairs -----

  /** One row per entity and account. */
  ghost predicate UniqueKeys(rows: seq<ConsolidatedRow>) {
    forall i, j :: 0 <= i < j < |rows| ==> rows[i].entity != rows[j].entity || rows[i].account != rows[j].account
  }

  lemma {:induction false} FoundAt(rows: seq<ConsolidatedRow>, r: ConsolidatedRow)
    requires UniqueKeys(rows) && r in rows
    ensures var p := Position(rows, r.entity, r.account); p.Some? && rows[p.value] == r
  {
    var i :| 0 <= i < |rows| && rows[i] == r;
    var p := Position(rows, r.entity, r.account);
    assert p.Some?;
  }

  lemma {:induction false} DueToRows(rows: seq<ConsolidatedRow>, tags: Tags)
    ensures forall key :: key in DueTo(rows, tags) ==>
      DueTo(rows, tags)[key] in rows && IsDueTo(DueTo(rows, tags)[key], tags)
      && key == (DueTo(rows, tags)[key].entity, tags[DueTo(rows, tags)[key].account])
  {
    if rows != [] {
      var n := |rows| - 1;
      DueToRows(rows[..n], tags);
      assert rows == rows[..n] + [rows[n]];
    }
  }

  /** The pair joins a tagged Due-From of one entity with the Due-To that owes it back. */
  ghost predicate Reciprocal(rows: seq<ConsolidatedRow>, tags: Tags, pair: EliminationPair) {
    exists from, to ::
      && from in rows && to in rows && IsDueFrom(from, tags) && IsDueTo(to, tags)
      && tags[from.account] == to.entity && tags[to.account] == from.entity
      && pair == EliminationPair(from.entity, from.account, to.entity, to.account)
  }

  lemma {:induction false} MatchedReciprocal(rows: seq<ConsolidatedRow>, tags: Tags, dueFrom: seq<ConsolidatedRow>)
    requires forall r :: r in dueFrom ==> r in rows && IsDueFrom(r, tags)
    ensures forall pair :: pair in MatchPairs(dueFrom, DueTo(rows, tags), tags) ==> Reciprocal(rows, tags, pair)
  {
    if dueFrom != [] {
      var n := |dueFrom| - 1;
      var from := dueFrom[n];
      assert forall r :: r in dueFrom[..n] ==> r in dueFrom;
      MatchedReciprocal(rows, tags, dueFrom[..n]);
      DueToRows(rows, tags);
      assert from in dueFrom;
      var key := (tags[from.account], from.entity);
      if key in DueTo(rows, tags) {
        var to := DueTo(rows, tags)[key];
        assert Reciprocal(rows, tags, EliminationPair(from.entity, from.account, to.entity, to.account));
      }
    }
  }

  lemma {:induction false} InsertedPairs(x: EliminationPair, s: seq<EliminationPair>)
    ensures forall p :: p in InsertPair(x, s) <==> p == x || p in s
  {
    if s != [] && !PairBefore(x, s[0]) { InsertedPairs(x, s[1..]); }
  }

  lemma {:induction false} SortedPairs(s: seq<EliminationPair>)
    ensures forall p :: p in SortPairs(s) <==> p in s
  {
    if s != [] {
      SortedPairs(s[1..]);
      InsertedPairs(s[0], SortPairs(s[1..]));
    }
  }

  /** Pairs derived from tags are reciprocal, name known rows and have the right directions. */
  lemma {:induction false} DerivedPairsDirected(rows: seq<ConsolidatedRow>, tags: Tags)
    requires UniqueKeys(rows)
    ensures forall pair :: pair in DerivedPairs(rows, tags) ==> Reciprocal(rows, tags, pair) && Directed(rows, pair)
  {
    DueFromTagged(rows, tags);
    MatchedReciprocal(rows, tags, DueFrom(rows, tags));
    SortedPairs(MatchPairs(DueFrom(rows, tags), DueTo(rows, tags), tags));
    forall pair | pair in DerivedPairs(rows, tags) ensures Directed(rows, pair) {
      assert Reciprocal(rows, tags, pair);
      var from, to :| from in rows && to in rows && IsDueFrom(from, tags) && IsDueTo(to, tags)
        && tags[from.account] == to.entity && tags[to.account] == from.entity
        && pair == EliminationPair(from.entity, from.account, to.entity, to.account);
      FoundAt(rows, from);
      FoundAt(rows, to);
    }
  }

  // ----- Which balances the derived pairs cover -----

  lemma {:induction false} DueFromComplete(rows: seq<ConsolidatedRow>, tags: Tags, r: ConsolidatedRow)
    ensures r in DueFrom(rows, tags) <==> r in rows && IsDueFrom(r, tags)
  {
    if rows != [] {
      var n := |rows| - 1;
      DueFromComplete(rows[..n], tags, r);
      assert rows == rows[..n] + [rows[n]];
    }
  }

  lemma {:induction false} MatchedIff(dueFrom: seq<ConsolidatedRow>, dueTo: map<(EntityId, EntityId), ConsolidatedRow>,
      tags: Tags, pair: EliminationPair)
    ensures pair in MatchPairs(dueFrom, dueTo, tags)
        <==> exists from :: from in dueFrom && MatchOf(from, dueTo, tags, pair)
  {
    if dueFrom != [] {
      var n := |dueFrom| - 1;
      MatchedIff(dueFrom[..n], dueTo, tags, pair);
      assert dueFrom == dueFrom[..n] + [dueFrom[n]];
      assert pair in MatchPairs(dueFrom, dueTo, tags)
          <==> pair in MatchPairs(dueFrom[..n], dueTo, tags) || MatchOf(dueFrom[n], dueTo, tags, pair);
      assert dueFrom[n] in dueFrom;
      assert forall from :: from in dueFrom <==> from in dueFrom[..n] || from == dueFrom[n];
    }
  }

  /** The pair joins the Due-From with the Due-To kept for it. */
  ghost predicate MatchOf(from: ConsolidatedRow, dueTo: map<(EntityId, EntityId), ConsolidatedRow>, tags: Tags,
      pair: EliminationPair) {
    && from.account in tags && (tags[from.account], from.entity) in dueTo
    && var to := dueTo[(tags[from.account], from.entity)];
    pair == EliminationPair(from.entity, from.account, to.entity, to.account)
  }

  ghost predicate SameDebt(a: ConsolidatedRow, b: ConsolidatedRow, tags: Tags) {
    IsDueTo(a, tags) && IsDueTo(b, tags) && a.entity == b.entity && tags[a.account] == tags[b.account]
  }

  /** No later row is a Due-To of the same entity to the same counterparty. */
  ghost predicate IsLastDebt(rows: seq<ConsolidatedRow>, tags: Tags, t: nat)
    requires t < |rows|
  {
    IsDueTo(rows[t], tags) && forall j :: t < j < |rows| ==> !SameDebt(rows[t], rows[j], tags)
  }

  lemma {:induction false} LastDebtKept(rows: seq<ConsolidatedRow>, tags: Tags, t: nat)
    requires t < |rows| && IsLastDebt(rows, tags, t)
    ensures var key := (rows[t].entity, tags[rows[t].account]);
      key in DueTo(rows, tags) && DueTo(rows, tags)[key] == rows[t]
  {
    var n := |rows| - 1;
    if t < n {
      forall j | t < j < n ensures !SameDebt(rows[..n][t], rows[..n][j], tags) {
        assert !SameDebt(rows[t], rows[j], tags);
      }
      LastDebtKept(rows[..n], tags, t);
      assert !SameDebt(rows[t], rows[n], tags);
    }
  }

  lemma {:induction false} LastDebt(rows: seq<ConsolidatedRow>, tags: Tags, t: nat) returns (last: nat)
    requires t < |rows| && IsDueTo(rows[t], tags)
    ensures t <= last < |rows| && SameDebt(rows[t], rows[last], tags) && IsLastDebt(rows, tags, last)
    decreases |rows| - t
  {
    if exists j :: t < j < |rows| && SameDebt(rows[t], rows[j], tags) {
      var j :| t < j < |rows| && SameDebt(rows[t], rows[j], tags);
      last := LastDebt(rows, tags, j);
    } else {
      last := t;
    }
  }

  /** The Due-From and the Due-To name each other's entity. */
  ghost predicate Mutual(from: ConsolidatedRow, to: ConsolidatedRow, tags: Tags) {
    IsDueFrom(from, tags) && IsDueTo(to, tags) && tags[from.account] == to.entity && tags[to.account] == from.entity
  }

  /** Two rows that name each other are paired exactly when the Due-To is its entity's last to that counterparty. */
  lemma {:induction false} PairedIff(rows: seq<ConsolidatedRow>, tags: Tags, f: nat, t: nat)
    requires UniqueKeys(rows) && f < |rows| && t < |rows| && Mutual(rows[f], rows[t], tags)
    ensures EliminationPair(rows[f].entity, rows[f].account, rows[t].entity, rows[t].account)
        in DerivedPairs(rows, tags)
       <==> IsLastDebt(rows, tags, t)
  {
    var pair := EliminationPair(rows[f].entity, rows[f].account, rows[t].entity, rows[t].account);
    var dueFrom, dueTo := DueFrom(rows, tags), DueTo(rows, tags);
    SortedPairs(MatchPairs(dueFrom, dueTo, tags));
    MatchedIff(dueFrom, dueTo, tags, pair);
    DueFromComplete(rows, tags, rows[f]);
    var last := LastDebt(rows, tags, t);
    LastDebtKept(rows, tags, last);
    if IsLastDebt(rows, tags, t) {
      assert last == t;
      assert MatchOf(rows[f], dueTo, tags, pair);
    }
    if pair in DerivedPairs(rows, tags) {
      var from :| from in dueFrom && MatchOf(from, dueTo, tags, pair);
      assert rows[last].entity == rows[t].entity && rows[last].account == rows[t].account;
      assert last == t;
    }
  }

  /**
   * Every two rows that name each other are paired exactly when no entity has two Due-Tos to a counterparty
   * that claims one.
   */
  lemma {:induction false} AllPairedIff(rows: seq<ConsolidatedRow>, tags: Tags)
    requires UniqueKeys(rows)
    ensures (forall f, t :: 0 <= f < |rows| && 0 <= t < |rows| && Mutual(rows[f], rows[t], tags) ==>
               EliminationPair(rows[f].entity, rows[f].account, rows[t].entity, rows[t].account)
                   in DerivedPairs(rows, tags))
       <==> (forall f, t, u ::
            0 <= f < |rows| && 0 <= t < u < |rows| && Mutual(rows[f], rows[t], tags)
            ==> !SameDebt(rows[t], rows[u], tags))
  {
    forall f, t | 0 <= f < |rows| && 0 <= t < |rows| && Mutual(rows[f], rows[t], tags)
      ensures EliminationPair(rows[f].entity, rows[f].account, rows[t].entity, rows[t].account)
          in DerivedPairs(rows, tags)
         <==> forall u :: t < u < |rows| ==> !SameDebt(rows[t], rows[u], tags)
    {
      PairedIff(rows, tags, f, t);
    }
  }

  /** A Due-From is in some pair exactly when a Due-To names it back. */
  lemma {:induction false} ClaimPairedIff(rows: seq<ConsolidatedRow>, tags: Tags, f: nat)
    requires UniqueKeys(rows) && f < |rows| && IsDueFrom(rows[f], tags)
    ensures (exists t :: 0 <= t < |rows| && Mutual(rows[f], rows[t], tags))
       <==> exists pair ::
            pair in DerivedPairs(rows, tags) && pair.fromEntity == rows[f].entity && pair.fromAccount == rows[f].account
  {
    if exists t :: 0 <= t < |rows| && Mutual(rows[f], rows[t], tags) {
      var t :| 0 <= t < |rows| && Mutual(rows[f], rows[t], tags);
      var last := LastDebt(rows, tags, t);
      PairedIff(rows, tags, f, last);
    }
    if exists pair ::
        pair in DerivedPairs(rows, tags) && pair.fromEntity == rows[f].entity && pair.fromAccount == rows[f].account {
      var pair :| pair in DerivedPairs(rows, tags) && pair.fromEntity == rows[f].entity
          && pair.fromAccount == rows[f].account;
      var t := NamedBack(rows, tags, f, pair);
    }
  }

  lemma {:induction false} NamedBack(rows: seq<ConsolidatedRow>, tags: Tags, f: nat, pair: EliminationPair)
    returns (t: nat)
    requires UniqueKeys(rows) && f < |rows|
    requires pair in DerivedPairs(rows, tags) && pair.fromEntity == rows[f].entity
        && pair.fromAccount == rows[f].account
    ensures t < |rows| && Mutual(rows[f], rows[t], tags)
  {
    DerivedPairsDirected(rows, tags);
    assert Reciprocal(rows, tags, pair);
    var from, to :| from in rows && to in rows && IsDueFrom(from, tags) && IsDueTo(to, tags)
      && tags[from.account] == to.entity && tags[to.account] == from.entity
      && pair == EliminationPair(from.entity, from.account, to.entity, to.account);
    var i :| 0 <= i < |rows| && rows[i] == from;
    assert i == f;
    t :| 0 <= t < |rows| && rows[t] == to;
  }

  /** So eliminating with derived pairs never fails and is finished after one run. */
  lemma {:induction false} DerivedElimination(ctb: ConsolidatedTrialBalance, tags: Tags)
    requires UniqueKeys(ctb.rows)
    ensures var pairs := DerivedPairs(ctb.rows, tags);
      && EliminateResult(ctb, pairs).Ok?
      && var once := EliminateResult(ctb, pairs).value.trialBalance;
      && Shrinks(ctb.rows, once.rows)
      && EliminateResult(once, pairs) == Ok(EliminationResult(once, [], 0))
  {
    var pairs := DerivedPairs(ctb.rows, tags);
    DerivedPairsDirected(ctb.rows, tags);
    forall k | 0 <= k < |pairs| ensures Directed(ctb.rows, pairs[k]) { assert pairs[k] in pairs; }
    DirectedElimination(ctb, pairs);
  }

  /** A consolidation of distinct entities with distinct accounts has unique keys. */
  lemma {:induction false} ConsolidatedKeysUnique(inputs: seq<EntityTrialBalance>)
    requires forall i, j :: 0 <= i < j < |inputs| ==> inputs[i].entity != inputs[j].entity
    requires forall i ::
        0 <= i < |inputs|
        ==> forall a, b :: 0 <= a < b < |inputs[i].rows| ==> inputs[i].rows[a].account != inputs[i].rows[b].account
    ensures UniqueKeys(ConsolidateResult(inputs).rows)
  {
    UnionUnique(inputs);
    SortKeepsRows(Union(inputs));
    PermutedUnique(Union(inputs), ConsolidateResult(inputs).rows);
  }

  lemma {:induction false} UnionEntities(inputs: seq<EntityTrialBalance>)
    ensures forall r :: r in Union(inputs) ==> exists i :: 0 <= i < |inputs| && inputs[i].entity == r.entity
  {
    if inputs != [] {
      UnionEntities(inputs[1..]);
      forall r | r in Union(inputs) ensures exists i :: 0 <= i < |inputs| && inputs[i].entity == r.entity {
        if r in Union(inputs[1..]) {
          var i :| 0 <= i < |inputs[1..]| && inputs[1..][i].entity == r.entity;
          assert inputs[i + 1].entity == r.entity;
        } else {
          assert inputs[0].entity == r.entity;
        }
      }
    }
  }

  lemma {:induction false} UnionUnique(inputs: seq<EntityTrialBalance>)
    requires forall i, j :: 0 <= i < j < |inputs| ==> inputs[i].entity != inputs[j].entity
    requires forall i ::
        0 <= i < |inputs|
        ==> forall a, b :: 0 <= a < b < |inputs[i].rows| ==> inputs[i].rows[a].account != inputs[i].rows[b].account
    ensures UniqueKeys(Union(inputs))
  {
    if inputs != [] {
      UnionUnique(inputs[1..]);
      UnionEntities(inputs[1..]);
      var head: seq<ConsolidatedRow> := RowsOf(inputs[0].entity, inputs[0].rows);
      var tail: seq<ConsolidatedRow> := Union(inputs[1..]);
      var all: seq<ConsolidatedRow> := head + tail;
      forall i, j | 0 <= i < j < |all|
        ensures all[i].entity != all[j].entity || all[i].account != all[j].account
      {
        if i < |head| <= j {
          assert tail[j - |head|] in tail;
        }
      }
    }
  }

  lemma {:induction false} PermutedUnique(a: seq<ConsolidatedRow>, b: seq<ConsolidatedRow>)
    requires UniqueKeys(a) && multiset(a) == multiset(b)
    ensures UniqueKeys(b)
  {
    forall i, j | 0 <= i < j < |b| ensures b[i].entity != b[j].entity || b[i].account != b[j].account {
      if b[i].entity == b[j].entity && b[i].account == b[j].account {
        TwicePresent(b, i, j);
        assert b[i] in multiset(a) && b[j] in multiset(a);
        assert b[i] in a && b[j] in a;
        OncePresent(a, b[i]);
      }
    }
  }

  lemma {:induction false} TwicePresent(s: seq<ConsolidatedRow>, i: nat, j: nat)
    requires i < j < |s|
    ensures s[i] == s[j] ==> multiset(s)[s[i]] >= 2
  {
    assert s == s[..j] + [s[j]] + s[j + 1..];
    assert s[i] in s[..j];
  }

  lemma {:induction false} OncePresent(s: seq<ConsolidatedRow>, r: ConsolidatedRow)
    requires UniqueKeys(s)
    ensures multiset(s)[r] <= 1
  {
    if s != [] {
      OncePresent(s[1..], r);
      assert s == [s[0]] + s[1..];
      if r == s[0] { assert r !in s[1..]; }
    }
  }
}
