/** What consolidation collects and elimination takes, row by row and entry by entry. */
module GroupBooks {
  import opened Sequences
  import opened Sums
  import opened Wrappers
  import opened Reports
  import opened Consolidation
  import opened Elimination
  import J = Journal

  /** What a row stands at on the side that increases its kind of account. */
  function Standing(r: ConsolidatedRow): int {
    match r.kind
    case Asset => r.debits - r.credits
    case Expense => r.debits - r.credits
    case Liability => r.credits - r.debits
    case Equity => r.credits - r.debits
    case Revenue => r.credits - r.debits
  }

  function RowDebits(rows: seq<ConsolidatedRow>): (r: seq<int>)
    ensures |r| == |rows|
  {
    seq(|rows|, i requires 0 <= i < |rows| => rows[i].debits)
  }

  function RowCredits(rows: seq<ConsolidatedRow>): (r: seq<int>)
    ensures |r| == |rows|
  {
    seq(|rows|, i requires 0 <= i < |rows| => rows[i].credits)
  }

  lemma {:induction false} RowTotals(rows: seq<ConsolidatedRow>)
    ensures Debits(rows) == Sum(RowDebits(rows)) && Credits(rows) == Sum(RowCredits(rows))
  {
    if rows != [] {
      RowTotals(rows[1..]);
      assert RowDebits(rows)[1..] == RowDebits(rows[1..]);
      assert RowCredits(rows)[1..] == RowCredits(rows[1..]);
    }
  }

  // ----- Consolidation -----

  /** One entity: its rows under its own name, whatever their order, and their totals. */
  lemma {:induction false} OneEntity(input: EntityTrialBalance)
    ensures var g := ConsolidateResult([input]);
      && multiset(g.rows)
         == multiset(seq(|input.rows|, i requires 0 <= i < |input.rows| =>
              ConsolidatedRow(input.entity, input.rows[i].account, input.rows[i].kind, input.rows[i].debits,
                              input.rows[i].credits)))
      && g.totalDebits == Sum(RowDebits(g.rows)) && g.totalCredits == Sum(RowCredits(g.rows))
  {
    GroupBalances([input]);
    RowTotals(ConsolidateResult([input]).rows);
    assert [input][1..] == [] && RowsOf(input.entity, input.rows) + [] == RowsOf(input.entity, input.rows);
    assert RowsOf(input.entity, input.rows) == seq(|input.rows|, i requires 0 <= i < |input.rows| =>
              ConsolidatedRow(input.entity, input.rows[i].account, input.rows[i].kind, input.rows[i].debits,
                              input.rows[i].credits));
  }

  /** A group holds the rows of its parts, and totals what they total. */
  lemma {:induction false} GroupOfGroups(a: seq<EntityTrialBalance>, b: seq<EntityTrialBalance>)
    ensures var g, h, all := ConsolidateResult(a), ConsolidateResult(b), ConsolidateResult(a + b);
      && multiset(all.rows) == multiset(g.rows) + multiset(h.rows)
      && all.totalDebits == g.totalDebits + h.totalDebits
      && all.totalCredits == g.totalCredits + h.totalCredits
  {
    UnionAppend(a, b);
    GroupBalances(a);
    GroupBalances(b);
    GroupBalances(a + b);
    TotalsAppend(Union(a), Union(b));
  }

  lemma {:induction false} UnionAppend(a: seq<EntityTrialBalance>, b: seq<EntityTrialBalance>)
    ensures Union(a + b) == Union(a) + Union(b)
  {
    if a == [] {
      assert a + b == b;
    } else {
      UnionAppend(a[1..], b);
      assert (a + b)[1..] == a[1..] + b;
      Concat(RowsOf(a[0].entity, a[0].rows), Union(a[1..]), Union(b));
    }
  }

  /** The rows are in order of entity, and within one of account. */
  lemma {:induction false} GroupSorted(inputs: seq<EntityTrialBalance>, i: nat, j: nat)
    requires i < j < |ConsolidateResult(inputs).rows|
    ensures var a, b := ConsolidateResult(inputs).rows[i], ConsolidateResult(inputs).rows[j];
      a.entity < b.entity || (a.entity == b.entity && a.account <= b.account)
  {
    GroupBalances(inputs);
    assert RowBefore(ConsolidateResult(inputs).rows[i], ConsolidateResult(inputs).rows[j]);
  }

  // ----- Elimination of one pair -----

  /** The first row of the entity's account. */
  predicate IsFirst(rows: seq<ConsolidatedRow>, entity: EntityId, account: J.AccountId, i: nat) {
    && i < |rows| && rows[i].entity == entity && rows[i].account == account
    && forall k :: 0 <= k < i ==> rows[k].entity != entity || rows[k].account != account
  }

  lemma {:induction false} PositionIsFirst(rows: seq<ConsolidatedRow>, entity: EntityId, account: J.AccountId, i: nat)
    requires IsFirst(rows, entity, account, i)
    ensures Position(rows, entity, account) == Some(i)
  {
    if i > 0 {
      forall k | 0 <= k < i - 1
        ensures rows[1..][k].entity != entity || rows[1..][k].account != account
      {
        assert rows[1..][k] == rows[k + 1];
      }
      PositionIsFirst(rows[1..], entity, account, i - 1);
    }
  }

  lemma {:induction false} OnlyPair(p: Progress, pair: EliminationPair)
    ensures EliminateAll(p, [pair]) == EliminateOne(p, pair)
  {
    assert [pair][1..] == [];
    var one := EliminateOne(p, pair);
    if one.Ok? { assert EliminateAll(one.value, []) == Ok(one.value); }
  }

  /** What a pair has in common: the smaller standing of its rows, nothing if that is not positive. */
  function InCommon(rows: seq<ConsolidatedRow>, i: nat, j: nat): nat
    requires i < |rows| && j < |rows|
  {
    if Standing(rows[i]) > 0 && Standing(rows[j]) > 0
    then if Standing(rows[i]) <= Standing(rows[j]) then Standing(rows[i]) else Standing(rows[j])
    else 0
  }

  /**
   * One pair: what its rows have in common is taken off the debits of the Due-From row and the
   * credits of the Due-To row and off no other; the parent credits the Due-From account and debits
   * the Due-To account with it.
   */
  lemma {:induction false} OnePair(ctb: ConsolidatedTrialBalance, pair: EliminationPair, i: nat, j: nat)
    requires IsFirst(ctb.rows, pair.fromEntity, pair.fromAccount, i)
    requires IsFirst(ctb.rows, pair.toEntity, pair.toAccount, j)
    ensures EliminateResult(ctb, [pair]).Ok?
    ensures var r := EliminateResult(ctb, [pair]).value; var amount := InCommon(ctb.rows, i, j);
      var after := r.trialBalance;
      && r.totalEliminated == amount
      && r.entries == (if amount == 0 then []
                       else [J.LedgerEntry(pair.fromAccount, J.Credit, amount),
                             J.LedgerEntry(pair.toAccount, J.Debit, amount)])
      && |after.rows| == |ctb.rows|
      && (forall k :: 0 <= k < |ctb.rows| ==>
            after.rows[k] == ctb.rows[k].(
              debits := ctb.rows[k].debits - (if k == i then amount else 0),
              credits := ctb.rows[k].credits - (if k == j then amount else 0)))
      && after.totalDebits == Sum(RowDebits(after.rows)) && after.totalCredits == Sum(RowCredits(after.rows))
  {
    PositionIsFirst(ctb.rows, pair.fromEntity, pair.fromAccount, i);
    PositionIsFirst(ctb.rows, pair.toEntity, pair.toAccount, j);
    OnlyPair(Progress(ctb.rows, [], 0), pair);
    RowTotals(EliminateResult(ctb, [pair]).value.trialBalance.rows);
  }

  ghost predicate HasRow(rows: seq<ConsolidatedRow>, entity: EntityId, account: J.AccountId) {
    exists i :: 0 <= i < |rows| && rows[i].entity == entity && rows[i].account == account
  }

  /** A pair whose Due-From, or else whose Due-To, is not there is reported under its name. */
  lemma {:induction false} UnknownPair(ctb: ConsolidatedTrialBalance, pair: EliminationPair)
    ensures !HasRow(ctb.rows, pair.fromEntity, pair.fromAccount)
        ==> EliminateResult(ctb, [pair]) == Err(UnknownAccount(pair.fromEntity, pair.fromAccount))
    ensures HasRow(ctb.rows, pair.fromEntity, pair.fromAccount)
        && !HasRow(ctb.rows, pair.toEntity, pair.toAccount)
        ==> EliminateResult(ctb, [pair]) == Err(UnknownAccount(pair.toEntity, pair.toAccount))
    ensures HasRow(ctb.rows, pair.fromEntity, pair.fromAccount) && HasRow(ctb.rows, pair.toEntity, pair.toAccount)
        ==> EliminateResult(ctb, [pair]).Ok?
  {
    OnlyPair(Progress(ctb.rows, [], 0), pair);
  }

  // ----- Elimination of many -----

  /** Progress made from the rows `p` left, added to it. */
  function Onto(p: Progress, q: Progress): Progress {
    Progress(q.rows, p.entries + q.entries, p.total + q.total)
  }

  lemma {:induction false} OneOnto(p: Progress, pair: EliminationPair)
    ensures match EliminateOne(Progress(p.rows, [], 0), pair)
            case Err(e) => EliminateOne(p, pair) == Err(e)
            case Ok(q) => EliminateOne(p, pair) == Ok(Onto(p, q))
  {
    var one := EliminateOne(Progress(p.rows, [], 0), pair);
    assert p.entries + [] == p.entries;
    if one.Ok? { assert EliminateOne(p, pair).value.entries == p.entries + one.value.entries; }
  }

  lemma {:induction false} OntoOnto(p: Progress, q: Progress, r: Progress)
    ensures Onto(Onto(p, q), r) == Onto(p, Onto(q, r))
  {
    assert p.entries + q.entries + r.entries == p.entries + (q.entries + r.entries);
  }

  /** What the progress so far adds up to does not matter to the pairs still to come. */
  lemma {:induction false} FromWhereItStands(p: Progress, pairs: seq<EliminationPair>)
    ensures match EliminateAll(Progress(p.rows, [], 0), pairs)
            case Err(e) => EliminateAll(p, pairs) == Err(e)
            case Ok(q) => EliminateAll(p, pairs) == Ok(Onto(p, q))
    decreases |pairs|
  {
    if pairs == [] {
      assert p.entries + [] == p.entries;
    } else {
      OneOnto(p, pairs[0]);
      var first := EliminateOne(Progress(p.rows, [], 0), pairs[0]);
      if first.Ok? {
        FromWhereItStands(first.value, pairs[1..]);
        FromWhereItStands(Onto(p, first.value), pairs[1..]);
        var rest := EliminateAll(Progress(first.value.rows, [], 0), pairs[1..]);
        if rest.Ok? { OntoOnto(p, first.value, rest.value); }
      }
    }
  }

  lemma {:induction false} AllThenMore(p: Progress, a: seq<EliminationPair>, b: seq<EliminationPair>)
    ensures EliminateAll(p, a + b) == match EliminateAll(p, a) case Err(e) => Err(e) case Ok(q) => EliminateAll(q, b)
    decreases |a|
  {
    if a == [] {
      assert a + b == b;
    } else {
      assert (a + b)[1..] == a[1..] + b;
      var next := EliminateOne(p, a[0]);
      if next.Ok? { AllThenMore(next.value, a[1..], b); }
    }
  }

  /** Pairs are eliminated one after the other, each from where the ones before it left the rows. */
  lemma {:induction false} PairsInTurn(ctb: ConsolidatedTrialBalance, a: seq<EliminationPair>, b: seq<EliminationPair>)
    ensures EliminateResult(ctb, a).Err? ==> EliminateResult(ctb, a + b) == EliminateResult(ctb, a)
    ensures EliminateResult(ctb, a).Ok? ==>
        var first := EliminateResult(ctb, a).value;
        EliminateResult(ctb, a + b) == FollowedBy(first, EliminateResult(first.trialBalance, b))
  {
    AllThenMore(Progress(ctb.rows, [], 0), a, b);
    ResultFrom(ctb, a);
    ResultFrom(ctb, a + b);
    var q := EliminateAll(Progress(ctb.rows, [], 0), a);
    if q.Ok? { FinishedOnto(q.value, b); }
  }

  /** A second elimination's entries and amount on top of the first's, or its error. */
  function FollowedBy(first: EliminationResult, second: Result<EliminationResult, ConsolidationError>)
    : Result<EliminationResult, ConsolidationError>
  {
    match second
    case Err(e) => Err(e)
    case Ok(rest) =>
      Ok(EliminationResult(rest.trialBalance, first.entries + rest.entries,
                           first.totalEliminated + rest.totalEliminated))
  }

  lemma {:induction false} FinishedOnto(q: Progress, b: seq<EliminationPair>)
    ensures var all := EliminateAll(q, b);
      FollowedBy(Finished(q), EliminateResult(Finished(q).trialBalance, b))
      == if all.Ok? then Ok(Finished(all.value)) else Err(all.error)
  {
    FromWhereItStands(q, b);
    ResultFrom(Finished(q).trialBalance, b);
  }

  function Finished(p: Progress): EliminationResult {
    EliminationResult(ConsolidatedTrialBalance(p.rows, Debits(p.rows), Credits(p.rows)), p.entries, p.total)
  }

  lemma {:induction false} ResultFrom(ctb: ConsolidatedTrialBalance, pairs: seq<EliminationPair>)
    ensures EliminateResult(ctb, pairs) == match EliminateAll(Progress(ctb.rows, [], 0), pairs)
                                           case Err(e) => Err(e)
                                           case Ok(p) => Ok(Finished(p))
  {
  }

  // ----- What the parent's entries say of each account -----

  /** Credits less debits that the entries bring to the account. */
  function CreditedTo(entries: seq<J.LedgerEntry>, a: J.AccountId): (r: seq<int>)
    ensures |r| == |entries|
  {
    seq(|entries|, i requires 0 <= i < |entries| =>
      if entries[i].account != a then 0
      else if entries[i].side == J.Credit then entries[i].amount else -entries[i].amount)
  }

  /** What each row of the account lost in debits beyond what it lost in credits. */
  function TakenFrom(before: seq<ConsolidatedRow>, after: seq<ConsolidatedRow>, a: J.AccountId): (r: seq<int>)
    requires |before| == |after|
    ensures |r| == |before|
  {
    seq(|before|, i requires 0 <= i < |before| =>
      if before[i].account != a then 0
      else (before[i].debits - after[i].debits) - (before[i].credits - after[i].credits))
  }

  /** The part of the amount that concerns the account when row `i` has it. */
  function Share(rows: seq<ConsolidatedRow>, i: nat, a: J.AccountId, amount: int): int
    requires i < |rows|
  {
    if rows[i].account == a then amount else 0
  }

  lemma {:induction false} ReduceTakes(rows: seq<ConsolidatedRow>, i: nat, j: nat, amount: int, a: J.AccountId)
    requires i < |rows| && j < |rows|
    ensures Sum(TakenFrom(rows, Reduce(rows, i, j, amount), a)) == Share(rows, i, a, amount) - Share(rows, j, a, amount)
  {
    var zero := seq(|rows|, _ => 0);
    var off, on := Share(rows, i, a, amount), Share(rows, j, a, amount);
    var once := zero[i := off];
    SumZeroes(zero);
    SumUpdate(zero, i, off);
    SumUpdate(once, j, once[j] - on);
    assert TakenFrom(rows, Reduce(rows, i, j, amount), a) == once[j := once[j] - on];
  }

  lemma {:induction false} StepTakes(p: Progress, pair: EliminationPair, a: J.AccountId)
    requires EliminateOne(p, pair).Ok?
    ensures var q := EliminateOne(p, pair).value;
      && |q.rows| == |p.rows|
      && Sum(CreditedTo(q.entries, a)) - Sum(CreditedTo(p.entries, a)) == Sum(TakenFrom(p.rows, q.rows, a))
  {
    var q := EliminateOne(p, pair).value;
    var i := Position(p.rows, pair.fromEntity, pair.fromAccount).value;
    var j := Position(p.rows, pair.toEntity, pair.toAccount).value;
    var amount := Overlap(p.rows, i, j);
    if amount == 0 {
      SumZeroes(TakenFrom(p.rows, q.rows, a));
    } else {
      var off, on := Share(p.rows, i, a, amount), Share(p.rows, j, a, amount);
      ReduceTakes(p.rows, i, j, amount, a);
      var c1, c2 := CreditedTo(p.entries, a) + [off], CreditedTo(q.entries, a);
      assert c2 == c1 + [-on];
      SumSnoc(CreditedTo(p.entries, a), off);
      SumSnoc(c1, -on);
    }
  }

  lemma {:induction false} TakenTwice(x: seq<ConsolidatedRow>, y: seq<ConsolidatedRow>, z: seq<ConsolidatedRow>,
      a: J.AccountId)
    requires SameKeys(x, y) && |y| == |z|
    ensures Sum(TakenFrom(x, z, a)) == Sum(TakenFrom(x, y, a)) + Sum(TakenFrom(y, z, a))
  {
    SumLinear(TakenFrom(x, y, a), 1, TakenFrom(y, z, a), TakenFrom(x, z, a));
  }

  lemma {:induction false} RunTakes(p: Progress, pairs: seq<EliminationPair>, a: J.AccountId)
    requires EliminateAll(p, pairs).Ok?
    ensures var q := EliminateAll(p, pairs).value;
      && SameKeys(p.rows, q.rows)
      && Sum(CreditedTo(q.entries, a)) - Sum(CreditedTo(p.entries, a)) == Sum(TakenFrom(p.rows, q.rows, a))
    decreases |pairs|
  {
    if pairs == [] {
      SumZeroes(TakenFrom(p.rows, p.rows, a));
    } else {
      var next := EliminateOne(p, pairs[0]).value;
      OneStep(p, pairs[0]);
      StepTakes(p, pairs[0], a);
      RunTakes(next, pairs[1..], a);
      TakenTwice(p.rows, next.rows, EliminateAll(p, pairs).value.rows, a);
    }
  }

  /**
   * For any pairs and every account: what the parent's entries credit to it, less what they debit,
   * is what the rows of that account lost in debits, less what they lost in credits.
   */
  lemma {:induction false} EntriesFollowRows(ctb: ConsolidatedTrialBalance, pairs: seq<EliminationPair>,
      a: J.AccountId)
    requires EliminateResult(ctb, pairs).Ok?
    ensures var r := EliminateResult(ctb, pairs).value;
      && |r.trialBalance.rows| == |ctb.rows|
      && Sum(CreditedTo(r.entries, a)) == Sum(TakenFrom(ctb.rows, r.trialBalance.rows, a))
  {
    RunTakes(Progress(ctb.rows, [], 0), pairs, a);
    assert CreditedTo([], a) == [];
  }

  // ----- Derived pairs -----

  /** An asset or expense of one entity tagged with the other, and a liability or equity the other way round. */
  predicate Owes(from: ConsolidatedRow, to: ConsolidatedRow, tags: Tags) {
    && (from.kind == Asset || from.kind == Expense) && (to.kind == Liability || to.kind == Equity)
    && from.account in tags && to.account in tags
    && tags[from.account] == to.entity && tags[to.account] == from.entity
  }

  /** Row `t` is the Due-To that counts for row `f`: it owes it, and no later row does. */
  ghost predicate PairedWith(rows: seq<ConsolidatedRow>, tags: Tags, f: nat, t: nat) {
    && f < |rows| && t < |rows| && Owes(rows[f], rows[t], tags)
    && forall u :: t < u < |rows| ==> !Owes(rows[f], rows[u], tags)
  }

  ghost predicate PairOfRows(rows: seq<ConsolidatedRow>, tags: Tags, pair: EliminationPair, f: nat, t: nat) {
    && PairedWith(rows, tags, f, t)
    && pair == EliminationPair(rows[f].entity, rows[f].account, rows[t].entity, rows[t].account)
  }

  /** The derived pairs are exactly those of a Due-From row and the last Due-To row that owes it. */
  lemma {:induction false} DerivedIff(rows: seq<ConsolidatedRow>, tags: Tags, pair: EliminationPair)
    ensures pair in DerivedPairs(rows, tags) <==> exists f: nat, t: nat :: PairOfRows(rows, tags, pair, f, t)
  {
    var dueFrom, dueTo := DueFrom(rows, tags), DueTo(rows, tags);
    SortedPairs(MatchPairs(dueFrom, dueTo, tags));
    MatchedIff(dueFrom, dueTo, tags, pair);
    if pair in DerivedPairs(rows, tags) {
      var from :| from in dueFrom && MatchOf(from, dueTo, tags, pair);
      DueFromComplete(rows, tags, from);
      DueToRows(rows, tags);
      var key := (tags[from.account], from.entity);
      assert key in dueTo && dueTo[key] in rows;
      var f :| 0 <= f < |rows| && rows[f] == from;
      var t :| 0 <= t < |rows| && rows[t] == dueTo[key];
      var last := LastDebt(rows, tags, t);
      LastDebtKept(rows, tags, last);
      assert PairOfRows(rows, tags, pair, f, last);
    }
    if exists f: nat, t: nat :: PairOfRows(rows, tags, pair, f, t) {
      var f: nat, t: nat :| PairOfRows(rows, tags, pair, f, t);
      assert IsLastDebt(rows, tags, t) by {
        forall u | t < u < |rows| ensures !SameDebt(rows[t], rows[u], tags) { assert !Owes(rows[f], rows[u], tags); }
      }
      LastDebtKept(rows, tags, t);
      DueFromComplete(rows, tags, rows[f]);
      assert MatchOf(rows[f], dueTo, tags, pair);
    }
  }

  /** By entity and account of the Due-From; no two pairs have the same. */
  ghost predicate InOrder(pairs: seq<EliminationPair>) {
    forall i, j :: 0 <= i < j < |pairs| ==> EarlierFrom(pairs[i], pairs[j])
  }

  predicate EarlierFrom(a: EliminationPair, b: EliminationPair) {
    a.fromEntity < b.fromEntity || (a.fromEntity == b.fromEntity && a.fromAccount < b.fromAccount)
  }

  ghost predicate OwnFrom(pairs: seq<EliminationPair>, x: EliminationPair) {
    forall p :: p in pairs ==> p.fromEntity != x.fromEntity || p.fromAccount != x.fromAccount
  }

  ghost predicate FromOnce(s: seq<EliminationPair>) {
    forall i, j ::
        0 <= i < j < |s| ==> s[i].fromEntity != s[j].fromEntity || s[i].fromAccount != s[j].fromAccount
  }

  lemma {:induction false} InsertInOrder(x: EliminationPair, s: seq<EliminationPair>)
    requires InOrder(s) && OwnFrom(s, x)
    ensures InOrder(InsertPair(x, s))
  {
    if s != [] && !PairBefore(x, s[0]) {
      var t := InsertPair(x, s[1..]);
      assert s[0] in s;
      forall p | p in s[1..] ensures p in s {}
      InsertInOrder(x, s[1..]);
      InsertedPairs(x, s[1..]);
      forall k | 0 <= k < |t| ensures EarlierFrom(s[0], t[k]) {
        assert t[k] in t;
        if t[k] != x {
          var m :| 0 <= m < |s[1..]| && s[1..][m] == t[k];
          assert s[m + 1] == t[k];
        }
      }
    } else if s != [] {
      assert s[0] in s;
    }
  }

  lemma {:induction false} SortInOrder(s: seq<EliminationPair>)
    requires FromOnce(s)
    ensures InOrder(SortPairs(s))
  {
    if s != [] {
      SortInOrder(s[1..]);
      SortedPairs(s[1..]);
      forall p | p in SortPairs(s[1..]) ensures p.fromEntity != s[0].fromEntity || p.fromAccount != s[0].fromAccount {
        assert p in s[1..];
        var k :| 0 <= k < |s[1..]| && s[1..][k] == p;
        assert s[k + 1] == p;
      }
      InsertInOrder(s[0], SortPairs(s[1..]));
    }
  }

  lemma {:induction false} DueFromUnique(rows: seq<ConsolidatedRow>, tags: Tags)
    requires UniqueKeys(rows)
    ensures UniqueKeys(DueFrom(rows, tags))
  {
    if rows != [] {
      var n := |rows| - 1;
      var front := DueFrom(rows[..n], tags);
      DueFromUnique(rows[..n], tags);
      forall i | 0 <= i < |front|
        ensures front[i].entity != rows[n].entity || front[i].account != rows[n].account
      {
        DueFromComplete(rows[..n], tags, front[i]);
        assert front[i] in front;
        var k :| 0 <= k < n && rows[..n][k] == front[i];
      }
    }
  }

  lemma {:induction false} MatchedFrom(dueFrom: seq<ConsolidatedRow>, dueTo: map<(EntityId, EntityId), ConsolidatedRow>,
      tags: Tags)
    requires UniqueKeys(dueFrom)
    ensures FromOnce(MatchPairs(dueFrom, dueTo, tags))
  {
    if dueFrom != [] {
      var n := |dueFrom| - 1;
      var front := MatchPairs(dueFrom[..n], dueTo, tags);
      MatchedFrom(dueFrom[..n], dueTo, tags);
      forall i | 0 <= i < |front|
        ensures front[i].fromEntity != dueFrom[n].entity || front[i].fromAccount != dueFrom[n].account
      {
        MatchedIff(dueFrom[..n], dueTo, tags, front[i]);
        assert front[i] in front;
        var from :| from in dueFrom[..n] && MatchOf(from, dueTo, tags, front[i]);
        var k :| 0 <= k < n && dueFrom[..n][k] == from;
      }
    }
  }

  /** The derived pairs come in order of their Due-From, each of which is in one pair only. */
  lemma {:induction false} DerivedInOrder(rows: seq<ConsolidatedRow>, tags: Tags)
    requires UniqueKeys(rows)
    ensures InOrder(DerivedPairs(rows, tags))
  {
    DueFromUnique(rows, tags);
    MatchedFrom(DueFrom(rows, tags), DueTo(rows, tags), tags);
    SortInOrder(MatchPairs(DueFrom(rows, tags), DueTo(rows, tags), tags));
  }
}
