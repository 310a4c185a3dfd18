/** Group consolidation and the elimination of inter-company balances. */
module Consolidation {
  import opened Wrappers
  import opened Reports
  import J = Journal

  type EntityId = nat

  datatype EntityBalance = EntityBalance(account: J.AccountId, kind: AccountType, debits: int, credits: int)

  datatype EntityTrialBalance = EntityTrialBalance(entity: EntityId, rows: seq<EntityBalance>)

  datatype ConsolidatedRow = ConsolidatedRow(entity: EntityId, account: J.AccountId, kind: AccountType, debits: int,
      credits: int)

  datatype ConsolidatedTrialBalance = ConsolidatedTrialBalance(rows: seq<ConsolidatedRow>, totalDebits: int,
      totalCredits: int)

  datatype EliminationPair = EliminationPair(fromEntity: EntityId, fromAccount: J.AccountId, toEntity: EntityId,
      toAccount: J.AccountId)

  datatype EliminationResult = EliminationResult(trialBalance: ConsolidatedTrialBalance, entries: seq<J.LedgerEntry>,
      totalEliminated: int)

  datatype ConsolidationError = UnknownAccount(entity: EntityId, account: J.AccountId)

  /** The balance in the row's normal direction. */
  function Signed(r: ConsolidatedRow): int {
    if NormalSide(r.kind) == J.Debit then r.debits - r.credits else r.credits - r.debits
  }

  function Debits(rows: seq<ConsolidatedRow>): int {
    if rows == [] then 0 else rows[0].debits + Debits(rows[1..])
  }

  function Credits(rows: seq<ConsolidatedRow>): int {
    if rows == [] then 0 else rows[0].credits + Credits(rows[1..])
  }

  // ----- Consolidation -----

  function RowOf(entity: EntityId, r: EntityBalance): ConsolidatedRow {
    ConsolidatedRow(entity, r.account, r.kind, r.debits, r.credits)
  }

  function RowsOf(entity: EntityId, rows: seq<EntityBalance>): (r: seq<ConsolidatedRow>)
    ensures |r| == |rows|
  {
    seq(|rows|, i requires 0 <= i < |rows| => RowOf(entity, rows[i]))
  }

  function Union(inputs: seq<EntityTrialBalance>): seq<ConsolidatedRow> {
    if inputs == [] then [] else RowsOf(inputs[0].entity, inputs[0].rows) + Union(inputs[1..])
  }

  /** By entity, then by account. */
  predicate RowBefore(a: ConsolidatedRow, b: ConsolidatedRow) {
    a.entity < b.entity || (a.entity == b.entity && a.account <= b.account)
  }

  function InsertRow(x: ConsolidatedRow, s: seq<ConsolidatedRow>): seq<ConsolidatedRow> {
    if s == [] || RowBefore(x, s[0]) then [x] + s else [s[0]] + InsertRow(x, s[1..])
  }

  /** The stable sort of the rows. */
  function SortRows(s: seq<ConsolidatedRow>): seq<ConsolidatedRow> {
    if s == [] then [] else InsertRow(s[0], SortRows(s[1..]))
  }

  function ConsolidateResult(inputs: seq<EntityTrialBalance>): ConsolidatedTrialBalance {
    ConsolidatedTrialBalance(SortRows(Union(inputs)), Debits(Union(inputs)), Credits(Union(inputs)))
  }

  method AddEntity(input: EntityTrialBalance, rows0: seq<ConsolidatedRow>, debits0: int, credits0: int)
    returns (rows: seq<ConsolidatedRow>, totalDebits: int, totalCredits: int)
    ensures rows == rows0 + RowsOf(input.entity, input.rows)
    ensures totalDebits == debits0 + Debits(RowsOf(input.entity, input.rows))
    ensures totalCredits == credits0 + Credits(RowsOf(input.entity, input.rows))
  {
    rows, totalDebits, totalCredits := rows0, debits0, credits0;
    ghost var all := RowsOf(input.entity, input.rows);
    for i := 0 to |input.rows|
      invariant rows == rows0 + all[..i]
      invariant totalDebits + Debits(all[i..]) == debits0 + Debits(all)
      invariant totalCredits + Credits(all[i..]) == credits0 + Credits(all)
    {
      var r := input.rows[i];
      assert all[i..][1..] == all[i + 1..];
      totalDebits := totalDebits + r.debits;
      totalCredits := totalCredits + r.credits;
      rows := rows + [RowOf(input.entity, r)];
    }
    assert all[..|all|] == all;
  }

  /** One entity's rows move from the union still to be read to the rows collected. */
  lemma {:induction false} UnionStep(inputs: seq<EntityTrialBalance>, i: nat, done: seq<ConsolidatedRow>)
    requires i < |inputs|
    ensures var own, rest := RowsOf(inputs[i].entity, inputs[i].rows), Union(inputs[i + 1..]);
      && (done + own) + rest == done + Union(inputs[i..])
      && Debits(Union(inputs[i..])) == Debits(own) + Debits(rest)
      && Credits(Union(inputs[i..])) == Credits(own) + Credits(rest)
  {
    assert inputs[i..][1..] == inputs[i + 1..];
    TotalsAppend(RowsOf(inputs[i].entity, inputs[i].rows), Union(inputs[i + 1..]));
  }

  method Consolidate(inputs: seq<EntityTrialBalance>) returns (ctb: ConsolidatedTrialBalance)
    ensures ctb == ConsolidateResult(inputs)
  {
    var rows: seq<ConsolidatedRow> := [];
    var totalDebits, totalCredits := 0, 0;
    for i := 0 to |inputs|
      invariant rows + Union(inputs[i..]) == Union(inputs)
      invariant totalDebits + Debits(Union(inputs[i..])) == Debits(Union(inputs))
      invariant totalCredits + Credits(Union(inputs[i..])) == Credits(Union(inputs))
    {
      UnionStep(inputs, i, rows);
      rows, totalDebits, totalCredits := AddEntity(inputs[i], rows, totalDebits, totalCredits);
    }
    assert inputs[|inputs|..] == [] && rows + [] == rows;
    ctb := ConsolidatedTrialBalance(SortRows(rows), totalDebits, totalCredits);
  }

  lemma {:induction false} TotalsAppend(a: seq<ConsolidatedRow>, b: seq<ConsolidatedRow>)
    ensures Debits(a + b) == Debits(a) + Debits(b)
    ensures Credits(a + b) == Credits(a) + Credits(b)
  {
    if a == [] {
      assert a + b == b;
    } else {
      assert (a + b)[1..] == a[1..] + b;
      TotalsAppend(a[1..], b);
    }
  }

  // ----- Elimination -----

  /** The first row with the key, if any. */
  function Position(rows: seq<ConsolidatedRow>, entity: EntityId, account: J.AccountId): (p: Option<nat>)
    ensures p.Some? ==> p.value < |rows| && rows[p.value].entity == entity && rows[p.value].account == account
    ensures p.None? ==> forall i :: 0 <= i < |rows| ==> rows[i].entity != entity || rows[i].account != account
  {
    if rows == [] then None
    else if rows[0].entity == entity && rows[0].account == account then Some(0)
    else match Position(rows[1..], entity, account)
      case None => None
      case Some(i) => Some(i + 1)
  }

  datatype Progress = Progress(rows: seq<ConsolidatedRow>, entries: seq<J.LedgerEntry>, total: int)

  /** The positive overlap of the two signed balances. */
  function Overlap(rows: seq<ConsolidatedRow>, i: nat, j: nat): (a: int)
    requires i < |rows| && j < |rows|
    ensures a >= 0
  {
    var m := if Signed(rows[j]) < Signed(rows[i]) then Signed(rows[j]) else Signed(rows[i]);
    if m > 0 then m else 0
  }

  /** The overlap is taken off the debits of one row and the credits of the other. */
  function Reduce(rows: seq<ConsolidatedRow>, i: nat, j: nat, amount: int): (r: seq<ConsolidatedRow>)
    requires i < |rows| && j < |rows|
    ensures |r| == |rows|
  {
    var once := rows[i := rows[i].(debits := rows[i].debits - amount)];
    once[j := once[j].(credits := once[j].credits - amount)]
  }

  function EliminateOne(p: Progress, pair: EliminationPair): Result<Progress, ConsolidationError> {
    match Position(p.rows, pair.fromEntity, pair.fromAccount)
    case None => Err(UnknownAccount(pair.fromEntity, pair.fromAccount))
    case Some(i) =>
      match Position(p.rows, pair.toEntity, pair.toAccount)
      case None => Err(UnknownAccount(pair.toEntity, pair.toAccount))
      case Some(j) =>
        var amount := Overlap(p.rows, i, j);
        if amount == 0 then Ok(p)
        else Ok(Progress(Reduce(p.rows, i, j, amount),
                         p.entries
                             + [J.LedgerEntry(pair.fromAccount, J.Credit, amount),
                                 J.LedgerEntry(pair.toAccount, J.Debit, amount)],
                         p.total + amount))
  }

  function EliminateAll(p: Progress, pairs: seq<EliminationPair>): Result<Progress, ConsolidationError>
    decreases |pairs|
  {
    if pairs == [] then Ok(p)
    else match EliminateOne(p, pairs[0])
      case Err(e) => Err(e)
      case Ok(next) => EliminateAll(next, pairs[1..])
  }

  function EliminateResult(ctb: ConsolidatedTrialBalance, pairs: seq<EliminationPair>): Result<EliminationResult,
      ConsolidationError> {
    match EliminateAll(Progress(ctb.rows, [], 0), pairs)
    case Err(e) => Err(e)
    case Ok(p) => Ok(EliminationResult(ConsolidatedTrialBalance(p.rows, Debits(p.rows), Credits(p.rows)), p.entries,
        p.total))
  }

  method Eliminate(ctb: ConsolidatedTrialBalance, pairs: seq<EliminationPair>)
    returns (r: Result<EliminationResult, ConsolidationError>)
    ensures r == EliminateResult(ctb, pairs)
  {
    var rows, entries, total := ctb.rows, [], 0;
    for k := 0 to |pairs|
      invariant EliminateAll(Progress(ctb.rows, [], 0), pairs)
          == EliminateAll(Progress(rows, entries, total), pairs[k..])
    {
      var pair := pairs[k];
      assert pairs[k..][1..] == pairs[k + 1..];
      ghost var before := Progress(rows, entries, total);
      var from := Position(rows, pair.fromEntity, pair.fromAccount);
      var to := Position(rows, pair.toEntity, pair.toAccount);
      if from.None? {
        return Err(UnknownAccount(pair.fromEntity, pair.fromAccount));
      }
      if to.None? {
        return Err(UnknownAccount(pair.toEntity, pair.toAccount));
      }
      var amount := Overlap(rows, from.value, to.value);
      if amount > 0 {
        rows := Reduce(rows, from.value, to.value, amount);
        entries := entries
            + [J.LedgerEntry(pair.fromAccount, J.Credit, amount), J.LedgerEntry(pair.toAccount, J.Debit, amount)];
        total := total + amount;
      }
      assert EliminateOne(before, pair) == Ok(Progress(rows, entries, total));
    }
    assert pairs[|pairs|..] == [];
    var totalDebits, totalCredits := SumRows(rows);
    r := Ok(EliminationResult(ConsolidatedTrialBalance(rows, totalDebits, totalCredits), entries, total));
  }

  method SumRows(rows: seq<ConsolidatedRow>) returns (totalDebits: int, totalCredits: int)
    ensures totalDebits == Debits(rows) && totalCredits == Credits(rows)
  {
    totalDebits, totalCredits := 0, 0;
    for i := 0 to |rows|
      invariant totalDebits + Debits(rows[i..]) == Debits(rows)
      invariant totalCredits + Credits(rows[i..]) == Credits(rows)
    {
      assert rows[i..][1..] == rows[i + 1..];
      totalDebits := totalDebits + rows[i].debits;
      totalCredits := totalCredits + rows[i].credits;
    }
  }

  // ----- Pairs derived from tags -----

  type Tags = map<J.AccountId, EntityId>

  predicate IsDueFrom(r: ConsolidatedRow, tags: Tags) {
    r.account in tags && (r.kind == Asset || r.kind == Expense)
  }

  predicate IsDueTo(r: ConsolidatedRow, tags: Tags) {
    r.account in tags && (r.kind == Liability || r.kind == Equity)
  }

  function DueFrom(rows: seq<ConsolidatedRow>, tags: Tags): seq<ConsolidatedRow> {
    if rows == [] then []
    else
      var n := |rows| - 1;
      DueFrom(rows[..n], tags) + if IsDueFrom(rows[n], tags) then [rows[n]] else []
  }

  /** The last Due-To row of each (entity, counterparty). */
  function DueTo(rows: seq<ConsolidatedRow>, tags: Tags): map<(EntityId, EntityId), ConsolidatedRow> {
    if rows == [] then map[]
    else
      var n := |rows| - 1;
      var front := DueTo(rows[..n], tags);
      if IsDueTo(rows[n], tags) then front[(rows[n].entity, tags[rows[n].account]) := rows[n]] else front
  }

  function MatchPairs(dueFrom: seq<ConsolidatedRow>, dueTo: map<(EntityId, EntityId), ConsolidatedRow>,
      tags: Tags): seq<EliminationPair> {
    if dueFrom == [] then []
    else
      var n := |dueFrom| - 1;
      var from := dueFrom[n];
      MatchPairs(dueFrom[..n], dueTo, tags)
      + if from.account in tags && (tags[from.account], from.entity) in dueTo
        then [EliminationPair(from.entity, from.account, dueTo[(tags[from.account], from.entity)].entity,
            dueTo[(tags[from.account], from.entity)].account)]
        else []
  }

  predicate PairBefore(a: EliminationPair, b: EliminationPair) {
    a.fromEntity < b.fromEntity || (a.fromEntity == b.fromEntity &&
    (a.fromAccount < b.fromAccount || (a.fromAccount == b.fromAccount &&
    (a.toEntity < b.toEntity || (a.toEntity == b.toEntity && a.toAccount <= b.toAccount)))))
  }

  function InsertPair(x: EliminationPair, s: seq<EliminationPair>): seq<EliminationPair> {
    if s == [] || PairBefore(x, s[0]) then [x] + s else [s[0]] + InsertPair(x, s[1..])
  }

  function SortPairs(s: seq<EliminationPair>): seq<EliminationPair> {
    if s == [] then [] else InsertPair(s[0], SortPairs(s[1..]))
  }

  function DerivedPairs(rows: seq<ConsolidatedRow>, tags: Tags): seq<EliminationPair> {
    SortPairs(MatchPairs(DueFrom(rows, tags), DueTo(rows, tags), tags))
  }

  method DeriveEliminationPairs(ctb: ConsolidatedTrialBalance, tags: Tags) returns (pairs: seq<EliminationPair>)
    ensures pairs == DerivedPairs(ctb.rows, tags)
  {
    var dueFrom, dueTo := SplitTagged(ctb.rows, tags);
    pairs := [];
    DueFromTagged(ctb.rows, tags);
    for i := 0 to |dueFrom|
      invariant pairs == MatchPairs(dueFrom[..i], dueTo, tags)
    {
      assert dueFrom[..i + 1][..i] == dueFrom[..i];
      var from := dueFrom[i];
      assert from in dueFrom;
      var key := (tags[from.account], from.entity);
      if key in dueTo {
        pairs := pairs + [EliminationPair(from.entity, from.account, dueTo[key].entity, dueTo[key].account)];
      }
    }
    assert dueFrom[..|dueFrom|] == dueFrom;
    pairs := SortPairs(pairs);
  }

  /** The tagged rows, by direction. */
  method SplitTagged(rows: seq<ConsolidatedRow>, tags: Tags)
    returns (dueFrom: seq<ConsolidatedRow>, dueTo: map<(EntityId, EntityId), ConsolidatedRow>)
    ensures dueFrom == DueFrom(rows, tags) && dueTo == DueTo(rows, tags)
  {
    dueFrom, dueTo := [], map[];
    for i := 0 to |rows|
      invariant dueFrom == DueFrom(rows[..i], tags) && dueTo == DueTo(rows[..i], tags)
    {
      assert rows[..i + 1][..i] == rows[..i];
      var row := rows[i];
      if row.account !in tags { continue; }
      match row.kind {
        case Asset => dueFrom := dueFrom + [row];
        case Expense => dueFrom := dueFrom + [row];
        case Liability => dueTo := dueTo[(row.entity, tags[row.account]) := row];
        case Equity => dueTo := dueTo[(row.entity, tags[row.account]) := row];
        case Revenue =>
      }
    }
    assert rows[..|rows|] == rows;
  }

  lemma {:induction false} DueFromTagged(rows: seq<ConsolidatedRow>, tags: Tags)
    ensures forall r :: r in DueFrom(rows, tags) ==> r in rows && IsDueFrom(r, tags)
  {
    if rows != [] {
      var n := |rows| - 1;
      DueFromTagged(rows[..n], tags);
      assert rows == rows[..n] + [rows[n]];
    }
  }
}
