/** What every run of the journal keeps. */
module JournalRuns {
  import opened Wrappers
  import opened EventStore
  import opened Journal

  datatype Command =
    | PostCommand(txId: nat, entries: seq<LedgerEntry>, period: string, memo: string,
        expected: Option<map<AccountId, nat>>)
    | SetStatus(forPeriod: string, status: PeriodStatus)

  function Do(j: JournalState, hash: AccountId -> nat, c: Command): (r: JournalState)
    requires |j.shards| == SHARDS
    ensures |r.shards| == SHARDS
  {
    match c
    case PostCommand(txId, entries, period, memo, expected) => Post(j, hash, txId, entries, period, memo, expected).0
    case SetStatus(period, status) => j.(periods := j.periods[period := status])
  }

  function Run(hash: AccountId -> nat, commands: seq<Command>): (r: JournalState)
    ensures |r.shards| == SHARDS
  {
    if commands == [] then NewJournal()
    else Do(Run(hash, commands[..|commands| - 1]), hash, commands[|commands| - 1])
  }

  /** The legs that one call of `PostLegs` writes. */
  function Written(shards: seq<Shard>, hash: AccountId -> nat, legs: seq<PostedLeg>,
      expected: Option<map<AccountId, nat>>): seq<PostedLeg>
    requires |shards| == SHARDS
    decreases |legs|
  {
    if legs == [] then []
    else match PostLeg(shards, hash, legs[0], expected)
      case None => []
      case Some(next) => [legs[0]] + Written(next, hash, legs[1..], expected)
  }

  function WrittenBy(j: JournalState, hash: AccountId -> nat, c: Command): seq<PostedLeg>
    requires |j.shards| == SHARDS
  {
    if c.PostCommand? && Refusal(j, hash, c.entries, c.period, c.expected).None?
    then Written(j.shards, hash, LegsOf(c.txId, c.entries, c.period, c.memo), c.expected)
    else []
  }

  /** Every leg written, in the order of writing. */
  function History(hash: AccountId -> nat, commands: seq<Command>): seq<PostedLeg> {
    if commands == [] then []
    else
      var before := commands[..|commands| - 1];
      History(hash, before) + WrittenBy(Run(hash, before), hash, commands[|commands| - 1])
  }

  // ----- Measures: sums of a quantity over legs -----

  function Measure(legs: seq<PostedLeg>, f: PostedLeg -> int): int {
    if legs == [] then 0 else Measure(legs[..|legs| - 1], f) + f(legs[|legs| - 1])
  }

  function DebitTo(a: AccountId): PostedLeg -> int {
    (l: PostedLeg) => if l.account == a && l.side == Debit then l.amount else 0
  }

  function CreditTo(a: AccountId): PostedLeg -> int {
    (l: PostedLeg) => if l.account == a && l.side == Credit then l.amount else 0
  }

  function Signed(l: PostedLeg): int {
    if l.side == Debit then l.amount else -l.amount
  }

  /** Debits less credits of one period, or of all when none is given. */
  function NetIn(period: Option<string>): PostedLeg -> int {
    (l: PostedLeg) => if period.None? || l.period == period.value then Signed(l) else 0
  }

  lemma {:induction false} MeasureAppend(a: seq<PostedLeg>, b: seq<PostedLeg>, f: PostedLeg -> int)
    ensures Measure(a + b, f) == Measure(a, f) + Measure(b, f)
  {
    if b == [] {
      assert a + b == a;
    } else {
      assert (a + b)[..|a + b| - 1] == a + b[..|b| - 1];
      MeasureAppend(a, b[..|b| - 1], f);
    }
  }

  lemma {:induction false} MeasureOne(l: PostedLeg, f: PostedLeg -> int)
    ensures Measure([l], f) == f(l)
  {
    assert [l][..0] == [];
  }

  lemma {:induction false} MeasureZero(legs: seq<PostedLeg>, f: PostedLeg -> int)
    requires forall k :: 0 <= k < |legs| ==> f(legs[k]) == 0
    ensures Measure(legs, f) == 0
  {
    if legs != [] { MeasureZero(legs[..|legs| - 1], f); }
  }

  lemma {:induction false} MeasureSame(legs: seq<PostedLeg>, f: PostedLeg -> int, g: PostedLeg -> int)
    requires forall k :: 0 <= k < |legs| ==> f(legs[k]) == g(legs[k])
    ensures Measure(legs, f) == Measure(legs, g)
  {
    if legs != [] { MeasureSame(legs[..|legs| - 1], f, g); }
  }

  /** A replayed balance is the sum of the debits and of the credits to its account. */
  lemma {:induction false} ReplayTotals(legs: seq<PostedLeg>, a: AccountId)
    ensures BalanceIn(Replay(legs), a) == AccountBalance(Measure(legs, DebitTo(a)), Measure(legs, CreditTo(a)))
    ensures a in Replay(legs) <==> exists k :: 0 <= k < |legs| && legs[k].account == a
  {
    if legs != [] {
      var n := |legs| - 1;
      ReplayTotals(legs[..n], a);
      if exists k :: 0 <= k < |legs| && legs[k].account == a {
        var k :| 0 <= k < |legs| && legs[k].account == a;
        if k < n { assert legs[..n][k].account == a; }
      }
    }
  }

  /** Measuring a period's slice is measuring the period's part of each leg. */
  lemma {:induction false} SliceMeasure(legs: seq<PostedLeg>, period: string, f: PostedLeg -> int, g: PostedLeg -> int)
    requires forall k :: 0 <= k < |legs| ==> g(legs[k]) == if legs[k].period == period then f(legs[k]) else 0
    ensures Measure(InPeriod(legs, period), f) == Measure(legs, g)
  {
    if legs != [] {
      var n := |legs| - 1;
      SliceMeasure(legs[..n], period, f, g);
      if legs[n].period == period {
        MeasureAppend(InPeriod(legs[..n], period), [legs[n]], f);
        MeasureOne(legs[n], f);
      } else {
        assert InPeriod(legs[..n], period) + [] == InPeriod(legs[..n], period);
      }
    }
  }

  // ----- Measures over the shards -----

  lemma {:induction false} AllLegsUpdate(shards: seq<Shard>, i: nat, shard: Shard, leg: PostedLeg, f: PostedLeg -> int)
    requires i < |shards| && Payloads(shard.store.log) == Payloads(shards[i].store.log) + [leg]
    ensures Measure(AllLegs(shards[i := shard]), f) == Measure(AllLegs(shards), f) + f(leg)
  {
    var head, tail := Payloads(shards[0].store.log), AllLegs(shards[1..]);
    MeasureAppend(head, tail, f);
    if i == 0 {
      assert shards[i := shard][1..] == shards[1..];
      MeasureAppend(head + [leg], tail, f);
      MeasureAppend(head, [leg], f);
      MeasureOne(leg, f);
    } else {
      assert shards[i := shard][1..] == shards[1..][i - 1 := shard];
      AllLegsUpdate(shards[1..], i - 1, shard, leg, f);
      MeasureAppend(head, AllLegs(shards[1..][i - 1 := shard]), f);
    }
  }

  lemma {:induction false} OneShardMeasure(shards: seq<Shard>, i: nat, f: PostedLeg -> int)
    requires i < |shards|
    requires forall k :: 0 <= k < |shards| && k != i ==> Measure(Payloads(shards[k].store.log), f) == 0
    ensures Measure(AllLegs(shards), f) == Measure(Payloads(shards[i].store.log), f)
  {
    MeasureAppend(Payloads(shards[0].store.log), AllLegs(shards[1..]), f);
    if i == 0 {
      NoShardMeasure(shards[1..], f);
    } else {
      forall k | 0 <= k < |shards[1..]| && k != i - 1 ensures Measure(Payloads(shards[1..][k].store.log), f) == 0 {
        assert shards[1..][k] == shards[k + 1];
      }
      OneShardMeasure(shards[1..], i - 1, f);
    }
  }

  lemma {:induction false} NoShardMeasure(shards: seq<Shard>, f: PostedLeg -> int)
    requires forall k :: 0 <= k < |shards| ==> Measure(Payloads(shards[k].store.log), f) == 0
    ensures Measure(AllLegs(shards), f) == 0
  {
    if shards != [] {
      MeasureAppend(Payloads(shards[0].store.log), AllLegs(shards[1..]), f);
      NoShardMeasure(shards[1..], f);
    }
  }

  lemma {:induction false} InAllLegs(shards: seq<Shard>, leg: PostedLeg)
    ensures leg in AllLegs(shards) <==> exists i :: 0 <= i < |shards| && leg in Payloads(shards[i].store.log)
  {
    if shards != [] {
      InAllLegs(shards[1..], leg);
      if exists i :: 0 <= i < |shards| && leg in Payloads(shards[i].store.log) {
        var i :| 0 <= i < |shards| && leg in Payloads(shards[i].store.log);
        if i > 0 { assert shards[1..][i - 1] == shards[i]; }
      }
      if leg in AllLegs(shards[1..]) {
        var i :| 0 <= i < |shards[1..]| && leg in Payloads(shards[1..][i].store.log);
        assert shards[i + 1] == shards[1..][i];
      }
    }
  }

  // ----- The invariant of the shards -----

  ghost predicate ShardOk(shard: Shard, hash: AccountId -> nat, i: nat) {
    && Contiguous(shard.store)
    && shard.balances == Replay(Payloads(shard.store.log))
    && forall k :: 0 <= k < |shard.store.log| ==>
         shard.store.log[k].aggregate == shard.store.log[k].payload.account
             && ShardIndex(hash, shard.store.log[k].aggregate) == i
  }

  ghost predicate ShardsOk(shards: seq<Shard>, hash: AccountId -> nat) {
    |shards| == SHARDS && forall i :: 0 <= i < SHARDS ==> ShardOk(shards[i], hash, i)
  }

  lemma {:induction false} ShardTakesLeg(shard: Shard, hash: AccountId -> nat, leg: PostedLeg)
    requires ShardOk(shard, hash, ShardIndex(hash, leg.account))
    ensures var next := Shard(Appended(shard.store, leg.account, leg), ApplyLeg(shard.balances, leg));
      && Payloads(next.store.log) == Payloads(shard.store.log) + [leg]
      && ShardOk(next, hash, ShardIndex(hash, leg.account))
  {
    var next := Shard(Appended(shard.store, leg.account, leg), ApplyLeg(shard.balances, leg));
    AppendKeepsContiguous(shard.store, leg.account, leg);
    assert Payloads(next.store.log) == Payloads(shard.store.log) + [leg];
    assert Payloads(next.store.log)[..|shard.store.log|] == Payloads(shard.store.log);
  }

  lemma {:induction false} PostLegKeeps(shards: seq<Shard>, hash: AccountId -> nat, leg: PostedLeg,
      expected: Option<map<AccountId, nat>>)
    requires ShardsOk(shards, hash) && PostLeg(shards, hash, leg, expected).Some?
    ensures ShardsOk(PostLeg(shards, hash, leg, expected).value, hash)
    ensures forall f ::
        Measure(AllLegs(PostLeg(shards, hash, leg, expected).value), f) == Measure(AllLegs(shards), f) + f(leg)
  {
    var i := ShardIndex(hash, leg.account);
    var new_ := PostLeg(shards, hash, leg, expected).value[i];
    assert ShardOk(shards[i], hash, i);
    assert new_ == Shard(Appended(shards[i].store, leg.account, leg), ApplyLeg(shards[i].balances, leg));
    ShardTakesLeg(shards[i], hash, leg);
    forall f ensures Measure(AllLegs(shards[i := new_]), f) == Measure(AllLegs(shards), f) + f(leg) {
      AllLegsUpdate(shards, i, new_, leg, f);
    }
  }

  lemma {:induction false} PostLegsKeeps(shards: seq<Shard>, hash: AccountId -> nat, legs: seq<PostedLeg>,
      expected: Option<map<AccountId, nat>>, f: PostedLeg -> int)
    requires ShardsOk(shards, hash)
    ensures ShardsOk(PostLegs(shards, hash, legs, expected).0, hash)
    ensures Measure(AllLegs(PostLegs(shards, hash, legs, expected).0), f)
        == Measure(AllLegs(shards), f) + Measure(Written(shards, hash, legs, expected), f)
    decreases |legs|
  {
    if legs != [] && PostLeg(shards, hash, legs[0], expected).Some? {
      var next := PostLeg(shards, hash, legs[0], expected).value;
      PostLegKeeps(shards, hash, legs[0], expected);
      PostLegsKeeps(next, hash, legs[1..], expected, f);
      MeasureAppend([legs[0]], Written(next, hash, legs[1..], expected), f);
      MeasureOne(legs[0], f);
    }
  }

  lemma {:induction false} NewShardsOk(hash: AccountId -> nat, f: PostedLeg -> int)
    ensures ShardsOk(NewJournal().shards, hash)
    ensures Measure(AllLegs(NewJournal().shards), f) == 0
  {
    NoShardMeasure(NewJournal().shards, f);
  }

  /** Whatever is summed over the legs, the shards together hold what was written, command by command. */
  lemma {:induction false} RunKeeps(hash: AccountId -> nat, commands: seq<Command>, f: PostedLeg -> int)
    ensures ShardsOk(Run(hash, commands).shards, hash)
    ensures Measure(AllLegs(Run(hash, commands).shards), f) == Measure(History(hash, commands), f)
  {
    if commands == [] {
      NewShardsOk(hash, f);
    } else {
      var before := commands[..|commands| - 1];
      var c, j := commands[|commands| - 1], Run(hash, before);
      RunKeeps(hash, before, f);
      MeasureAppend(History(hash, before), WrittenBy(j, hash, c), f);
      if c.PostCommand? && Refusal(j, hash, c.entries, c.period, c.expected).None? {
        PostLegsKeeps(j.shards, hash, LegsOf(c.txId, c.entries, c.period, c.memo), c.expected, f);
      }
    }
  }

  // ----- The live read model is the replayed one -----

  lemma {:induction false} ForeignShard(shards: seq<Shard>, hash: AccountId -> nat, a: AccountId, k: nat)
    requires ShardsOk(shards, hash) && k < SHARDS && k != ShardIndex(hash, a)
    ensures forall l :: l in Payloads(shards[k].store.log) ==> l.account != a
    ensures Measure(Payloads(shards[k].store.log), DebitTo(a)) == 0
        == Measure(Payloads(shards[k].store.log), CreditTo(a))
  {
    var log := shards[k].store.log;
    assert ShardOk(shards[k], hash, k);
    forall i | 0 <= i < |log| ensures Payloads(log)[i].account != a { assert ShardIndex(hash, log[i].aggregate) == k; }
    MeasureZero(Payloads(log), DebitTo(a));
    MeasureZero(Payloads(log), CreditTo(a));
  }

  lemma {:induction false} LiveBalance(shards: seq<Shard>, hash: AccountId -> nat, a: AccountId)
    requires ShardsOk(shards, hash)
    ensures BalanceIn(Replay(AllLegs(shards)), a) == BalanceOf(shards, hash, a)
         == AccountBalance(Measure(AllLegs(shards), DebitTo(a)), Measure(AllLegs(shards), CreditTo(a)))
  {
    var i := ShardIndex(hash, a);
    assert ShardOk(shards[i], hash, i);
    forall k | 0 <= k < SHARDS && k != i
      ensures Measure(Payloads(shards[k].store.log), DebitTo(a)) == 0
          == Measure(Payloads(shards[k].store.log), CreditTo(a))
    {
      ForeignShard(shards, hash, a, k);
    }
    OneShardMeasure(shards, i, DebitTo(a));
    OneShardMeasure(shards, i, CreditTo(a));
    ReplayTotals(AllLegs(shards), a);
    ReplayTotals(Payloads(shards[i].store.log), a);
  }

  /**
   * After any run, for every account: the live balance, the balance replayed from the concatenated
   * shard logs and the balance folded from the postings in their order are the same.
   */
  lemma {:induction false} LiveEqualsReplay(hash: AccountId -> nat, commands: seq<Command>, a: AccountId)
    ensures var shards := Run(hash, commands).shards;
      BalanceOf(shards, hash, a) == BalanceIn(Replay(AllLegs(shards)), a)
          == BalanceIn(Replay(History(hash, commands)), a)
  {
    RunKeeps(hash, commands, DebitTo(a));
    RunKeeps(hash, commands, CreditTo(a));
    LiveBalance(Run(hash, commands).shards, hash, a);
    ReplayTotals(History(hash, commands), a);
  }

  /** A period's rebuilt balance folds exactly the history's legs of that period. */
  lemma {:induction false} PeriodEqualsReplay(hash: AccountId -> nat, commands: seq<Command>, period: string,
      a: AccountId)
    ensures BalanceIn(Replay(InPeriod(AllLegs(Run(hash, commands).shards), period)), a)
         == BalanceIn(Replay(InPeriod(History(hash, commands), period)), a)
  {
    var live, past := AllLegs(Run(hash, commands).shards), History(hash, commands);
    var d := (l: PostedLeg) => if l.period == period then DebitTo(a)(l) else 0;
    var c := (l: PostedLeg) => if l.period == period then CreditTo(a)(l) else 0;
    RunKeeps(hash, commands, d);
    RunKeeps(hash, commands, c);
    ReplayTotals(InPeriod(live, period), a);
    ReplayTotals(InPeriod(past, period), a);
    SliceMeasure(live, period, DebitTo(a), d);
    SliceMeasure(live, period, CreditTo(a), c);
    SliceMeasure(past, period, DebitTo(a), d);
    SliceMeasure(past, period, CreditTo(a), c);
  }

  /** Each account's events are numbered 1 to its version, all in its own shard. */
  lemma {:induction false} SequencesContiguous(hash: AccountId -> nat, commands: seq<Command>, a: AccountId)
    ensures var shards := Run(hash, commands).shards;
      var stream := Stream(shards[ShardIndex(hash, a)].store.log, a);
      && |stream| == VersionOf(shards, hash, a)
      && (forall k :: 0 <= k < |stream| ==> stream[k].sequence == k + 1)
      && (forall i :: 0 <= i < SHARDS && i != ShardIndex(hash, a) ==> Stream(shards[i].store.log, a) == [])
  {
    RunKeeps(hash, commands, DebitTo(a));
    var shards := Run(hash, commands).shards;
    assert ShardOk(shards[ShardIndex(hash, a)], hash, ShardIndex(hash, a));
    forall i | 0 <= i < SHARDS && i != ShardIndex(hash, a) ensures Stream(shards[i].store.log, a) == [] {
      assert ShardOk(shards[i], hash, i);
      forall k | 0 <= k < |shards[i].store.log| ensures shards[i].store.log[k].aggregate != a {
        assert ShardIndex(hash, shards[i].store.log[k].aggregate) == i;
      }
      EmptyStream(shards[i].store.log, a);
    }
  }

  lemma {:induction false} EmptyStream<E>(log: seq<StoredEvent<AccountId, E>>, a: AccountId)
    requires forall k :: 0 <= k < |log| ==> log[k].aggregate != a
    ensures Stream(log, a) == []
  {
    if log != [] { EmptyStream(log[..|log| - 1], a); }
  }

  // ----- When a post goes through -----

  ghost predicate DistinctAccounts(entries: seq<LedgerEntry>) {
    forall i, j :: 0 <= i < j < |entries| ==> entries[i].account != entries[j].account
  }

  /** The account's version is the one the guard expects. */
  ghost predicate Fresh(shards: seq<Shard>, hash: AccountId -> nat, legs: seq<PostedLeg>,
      expected: Option<map<AccountId, nat>>)
    requires |shards| == SHARDS
  {
    expected.Some?
    ==> forall k ::
        0 <= k < |legs| ==> VersionOf(shards, hash, legs[k].account) == Want(expected.value, legs[k].account)
  }

  lemma {:induction false} InAccounts(a: AccountId, s: seq<AccountId>, b: AccountId)
    ensures b in InsertAccount(a, s) <==> b == a || b in s
  {
    if s != [] && a > s[0] { InAccounts(a, s[1..], b); }
  }

  lemma {:induction false} AccountsComplete(entries: seq<LedgerEntry>, k: nat)
    requires k < |entries|
    ensures entries[k].account in Accounts(entries)
  {
    InAccounts(entries[0].account, Accounts(entries[1..]), entries[k].account);
    if k > 0 { AccountsComplete(entries[1..], k - 1); }
  }

  lemma {:induction false} NoneStale(shards: seq<Shard>, hash: AccountId -> nat, accounts: seq<AccountId>,
      expected: map<AccountId, nat>)
    requires |shards| == SHARDS && FirstStale(shards, hash, accounts, expected).None?
    ensures forall a :: a in accounts ==> VersionOf(shards, hash, a) == Want(expected, a)
  {
    if accounts != [] { NoneStale(shards, hash, accounts[1..], expected); }
  }

  lemma {:induction false} AdmittedIsFresh(j: JournalState, hash: AccountId -> nat, txId: nat,
      entries: seq<LedgerEntry>, period: string, memo: string, expected: Option<map<AccountId, nat>>)
    requires |j.shards| == SHARDS && Refusal(j, hash, entries, period, expected).None?
    ensures Fresh(j.shards, hash, LegsOf(txId, entries, period, memo), expected)
  {
    if expected.Some? {
      NoneStale(j.shards, hash, Accounts(entries), expected.value);
      forall k | 0 <= k < |entries| ensures VersionOf(j.shards, hash, entries[k].account)
          == Want(expected.value, entries[k].account) {
        AccountsComplete(entries, k);
      }
    }
  }

  lemma {:induction false} VersionsAfter(shards: seq<Shard>, hash: AccountId -> nat, leg: PostedLeg,
      expected: Option<map<AccountId, nat>>, a: AccountId)
    requires |shards| == SHARDS && PostLeg(shards, hash, leg, expected).Some?
    ensures VersionOf(PostLeg(shards, hash, leg, expected).value, hash, a)
        == VersionOf(shards, hash, a) + if a == leg.account then 1 else 0
  {}

  /** With fresh, distinct accounts (or no guard at all) every leg is written. */
  lemma {:induction false} WritesAll(shards: seq<Shard>, hash: AccountId -> nat, legs: seq<PostedLeg>,
      expected: Option<map<AccountId, nat>>)
    requires |shards| == SHARDS && Fresh(shards, hash, legs, expected)
    requires expected.Some? ==> forall i, j :: 0 <= i < j < |legs| ==> legs[i].account != legs[j].account
    ensures PostLegs(shards, hash, legs, expected).1.None?
    ensures Written(shards, hash, legs, expected) == legs
    decreases |legs|
  {
    if legs != [] {
      var next := PostLeg(shards, hash, legs[0], expected).value;
      if expected.Some? {
        forall k | 0 <= k < |legs[1..]| ensures VersionOf(next, hash, legs[1..][k].account)
            == Want(expected.value, legs[1..][k].account) {
          VersionsAfter(shards, hash, legs[0], expected, legs[k + 1].account);
        }
      }
      WritesAll(next, hash, legs[1..], expected);
      assert legs == [legs[0]] + legs[1..];
    }
  }

  /** A guarded loop that meets an account already past its expected version fails. */
  lemma {:induction false} StaleFails(shards: seq<Shard>, hash: AccountId -> nat, legs: seq<PostedLeg>,
      expected: map<AccountId, nat>, k: nat)
    requires |shards| == SHARDS && k < |legs|
    requires VersionOf(shards, hash, legs[k].account) > Want(expected, legs[k].account)
    ensures PostLegs(shards, hash, legs, Some(expected)).1.Some?
    decreases |legs|
  {
    if k > 0 && PostLeg(shards, hash, legs[0], Some(expected)).Some? {
      VersionsAfter(shards, hash, legs[0], Some(expected), legs[k].account);
      StaleFails(PostLeg(shards, hash, legs[0], Some(expected)).value, hash, legs[1..], expected, k - 1);
    }
  }

  lemma {:induction false} RepeatFails(shards: seq<Shard>, hash: AccountId -> nat, legs: seq<PostedLeg>,
      expected: map<AccountId, nat>, i: nat, j: nat)
    requires |shards| == SHARDS && i < j < |legs| && legs[i].account == legs[j].account
    requires Fresh(shards, hash, legs, Some(expected))
    ensures PostLegs(shards, hash, legs, Some(expected)).1.Some?
    decreases |legs|
  {
    var next := PostLeg(shards, hash, legs[0], Some(expected)).value;
    if exists k :: 1 <= k < |legs| && legs[k].account == legs[0].account {
      var k :| 1 <= k < |legs| && legs[k].account == legs[0].account;
      VersionsAfter(shards, hash, legs[0], Some(expected), legs[k].account);
      StaleFails(next, hash, legs[1..], expected, k - 1);
    } else {
      forall k | 0 <= k < |legs[1..]| ensures VersionOf(next, hash, legs[1..][k].account)
          == Want(expected, legs[1..][k].account) {
        VersionsAfter(shards, hash, legs[0], Some(expected), legs[k + 1].account);
      }
      RepeatFails(next, hash, legs[1..], expected, i - 1, j - 1);
    }
  }

  lemma {:induction false} VersionsOnlyGrow(shards: seq<Shard>, hash: AccountId -> nat, legs: seq<PostedLeg>,
      expected: Option<map<AccountId, nat>>, a: AccountId)
    requires |shards| == SHARDS
    ensures VersionOf(PostLegs(shards, hash, legs, expected).0, hash, a) >= VersionOf(shards, hash, a)
    decreases |legs|
  {
    if legs != [] && PostLeg(shards, hash, legs[0], expected).Some? {
      VersionsAfter(shards, hash, legs[0], expected, a);
      VersionsOnlyGrow(PostLeg(shards, hash, legs[0], expected).value, hash, legs[1..], expected, a);
    }
  }

  /** A post succeeds exactly when it is not refused and, if guarded, names no account twice. */
  lemma {:induction false} PostSucceedsIff(j: JournalState, hash: AccountId -> nat, txId: nat,
      entries: seq<LedgerEntry>, period: string, memo: string, expected: Option<map<AccountId, nat>>)
    requires |j.shards| == SHARDS
    ensures Post(j, hash, txId, entries, period, memo, expected).1.Ok?
       <==> Refusal(j, hash, entries, period, expected).None? && (expected.Some? ==> DistinctAccounts(entries))
  {
    if Refusal(j, hash, entries, period, expected).None? {
      var legs := LegsOf(txId, entries, period, memo);
      AdmittedIsFresh(j, hash, txId, entries, period, memo, expected);
      if expected.Some? && !DistinctAccounts(entries) {
        var i, k :| 0 <= i < k < |entries| && entries[i].account == entries[k].account;
        RepeatFails(j.shards, hash, legs, expected.value, i, k);
      } else {
        WritesAll(j.shards, hash, legs, expected);
      }
    }
  }

  /**
   * "Nothing is posted" when a post fails, and exactly when that is not so: a post fails and still
   * changes the journal if and only if it passes every check, is guarded, and names an account twice.
   */
  lemma {:induction false} HalfPostedIff(j: JournalState, hash: AccountId -> nat, txId: nat, entries: seq<LedgerEntry>,
      period: string, memo: string, expected: Option<map<AccountId, nat>>)
    requires |j.shards| == SHARDS
    ensures var (after, r) := Post(j, hash, txId, entries, period, memo, expected);
      (r.Err? && after != j)
      <==> Refusal(j, hash, entries, period, expected).None? && expected.Some? && !DistinctAccounts(entries)
  {
    PostSucceedsIff(j, hash, txId, entries, period, memo, expected);
    if Refusal(j, hash, entries, period, expected).None? && expected.Some? {
      var legs := LegsOf(txId, entries, period, memo);
      AdmittedIsFresh(j, hash, txId, entries, period, memo, expected);
      var a := legs[0].account;
      var next := PostLeg(j.shards, hash, legs[0], expected).value;
      VersionsAfter(j.shards, hash, legs[0], expected, a);
      VersionsOnlyGrow(next, hash, legs[1..], expected, a);
    }
  }

  // ----- Debits equal credits -----

  lemma {:induction false} EntriesNet(txId: nat, entries: seq<LedgerEntry>, period: string, memo: string,
      f: PostedLeg -> int)
    requires forall l: PostedLeg :: l.period == period ==> f(l) == Signed(l)
    ensures Measure(LegsOf(txId, entries, period, memo), f) == Debits(entries) - Credits(entries)
  {
    if entries != [] {
      var legs := LegsOf(txId, entries, period, memo);
      EntriesNet(txId, entries[1..], period, memo, f);
      assert legs == [legs[0]] + LegsOf(txId, entries[1..], period, memo);
      MeasureAppend([legs[0]], LegsOf(txId, entries[1..], period, memo), f);
      MeasureOne(legs[0], f);
    }
  }

  /** How many entries come before the first that names an account again. */
  function DistinctPrefix(entries: seq<LedgerEntry>): (k: nat)
    ensures k <= |entries| && DistinctAccounts(entries[..k])
    ensures k < |entries| ==> exists i :: 0 <= i < k && entries[i].account == entries[k].account
  {
    if entries == [] then 0
    else
      var n := |entries| - 1;
      var k := DistinctPrefix(entries[..n]);
      assert entries[..n][..k] == entries[..k];
      if k < n then k
      else if exists i :: 0 <= i < n && entries[i].account == entries[n].account then n
      else (assert entries[..n] + [entries[n]] == entries; n + 1)
  }

  lemma {:induction false} DistinctIsWhole(entries: seq<LedgerEntry>)
    ensures DistinctPrefix(entries) == |entries| <==> DistinctAccounts(entries)
  {
    var k := DistinctPrefix(entries);
    if k == |entries| { assert entries[..k] == entries; }
  }

  /** A guarded loop over fresh accounts writes exactly the legs before the first repeated account. */
  lemma {:induction false} WritesPrefix(shards: seq<Shard>, hash: AccountId -> nat, legs: seq<PostedLeg>,
      expected: map<AccountId, nat>, k: nat)
    requires |shards| == SHARDS && k <= |legs|
    requires forall m :: 0 <= m < k ==> VersionOf(shards, hash, legs[m].account) == Want(expected, legs[m].account)
    requires forall i, m :: 0 <= i < m < k ==> legs[i].account != legs[m].account
    requires k < |legs| ==> var v, w := VersionOf(shards, hash, legs[k].account), Want(expected, legs[k].account);
      v > w || (v == w && exists i :: 0 <= i < k && legs[i].account == legs[k].account)
    ensures Written(shards, hash, legs, Some(expected)) == legs[..k]
    decreases k
  {
    if k > 0 {
      var next, rest := PostLeg(shards, hash, legs[0], Some(expected)).value, legs[1..];
      assert legs[..k] == [legs[0]] + rest[..k - 1];
      assert forall m :: 0 <= m < |rest| ==> rest[m] == legs[m + 1];
      forall m | 0 <= m < |rest| ensures VersionOf(next, hash, rest[m].account)
          == VersionOf(shards, hash, rest[m].account) + if rest[m].account == legs[0].account then 1 else 0 {
        VersionsAfter(shards, hash, legs[0], Some(expected), rest[m].account);
      }
      if k < |legs| && VersionOf(shards, hash, legs[k].account) == Want(expected, legs[k].account) {
        var i :| 0 <= i < k && legs[i].account == legs[k].account;
        if i > 0 { assert rest[i - 1].account == rest[k - 1].account; }
      }
      WritesPrefix(next, hash, rest, expected, k - 1);
    }
  }

  // ----- When the books balance -----

  /** The entries an admitted post writes: all of them, or under a guard those before the first repeated account. */
  function Kept(entries: seq<LedgerEntry>, expected: Option<map<AccountId, nat>>): seq<LedgerEntry> {
    if expected.Some? then entries[..DistinctPrefix(entries)] else entries
  }

  /** What a command adds to debits less credits, in a period or in all. */
  function Imbalance(j: JournalState, hash: AccountId -> nat, c: Command, period: Option<string>): int
    requires |j.shards| == SHARDS
  {
    if c.PostCommand? && (period.None? || period.value == c.period)
        && Refusal(j, hash, c.entries, c.period, c.expected).None?
    then Debits(Kept(c.entries, c.expected)) - Credits(Kept(c.entries, c.expected))
    else 0
  }

  /** An admitted post writes exactly the entries it keeps. */
  lemma {:induction false} WritesKept(j: JournalState, hash: AccountId -> nat, txId: nat, entries: seq<LedgerEntry>,
      period: string, memo: string, expected: Option<map<AccountId, nat>>)
    requires |j.shards| == SHARDS && Refusal(j, hash, entries, period, expected).None?
    ensures Written(j.shards, hash, LegsOf(txId, entries, period, memo), expected)
        == LegsOf(txId, Kept(entries, expected), period, memo)
  {
    var legs := LegsOf(txId, entries, period, memo);
    AdmittedIsFresh(j, hash, txId, entries, period, memo, expected);
    if expected.None? {
      WritesAll(j.shards, hash, legs, expected);
    } else {
      var k := DistinctPrefix(entries);
      assert forall i :: 0 <= i < k ==> entries[..k][i] == entries[i];
      if k < |entries| {
        var i :| 0 <= i < k && entries[i].account == entries[k].account;
        assert legs[i].account == legs[k].account;
      }
      WritesPrefix(j.shards, hash, legs, expected.value, k);
      assert legs[..k] == LegsOf(txId, entries[..k], period, memo);
    }
  }

  lemma {:induction false} CommandMoves(j: JournalState, hash: AccountId -> nat, c: Command, period: Option<string>)
    requires |j.shards| == SHARDS
    ensures Measure(WrittenBy(j, hash, c), NetIn(period)) == Imbalance(j, hash, c, period)
  {
    if c.PostCommand? && Refusal(j, hash, c.entries, c.period, c.expected).None? {
      WritesKept(j, hash, c.txId, c.entries, c.period, c.memo, c.expected);
      var kept := Kept(c.entries, c.expected);
      if period.None? || period.value == c.period {
        EntriesNet(c.txId, kept, c.period, c.memo, NetIn(period));
      } else {
        MeasureZero(LegsOf(c.txId, kept, c.period, c.memo), NetIn(period));
      }
    }
  }

  /** The command breaks no balance: it is not a half-posted transaction whose kept entries do not balance. */
  ghost predicate KeepsBalance(j: JournalState, hash: AccountId -> nat, c: Command, period: Option<string>)
    requires |j.shards| == SHARDS
  {
    c.PostCommand? && (period.None? || period.value == c.period) && c.expected.Some?
        && Refusal(j, hash, c.entries, c.period, c.expected).None? ==>
      Debits(c.entries[..DistinctPrefix(c.entries)]) == Credits(c.entries[..DistinctPrefix(c.entries)])
  }

  /**
   * Only a guarded post can move the balance, and it does so exactly when the entries before its first
   * repeated account do not balance.
   */
  lemma {:induction false} MovesNothingIff(j: JournalState, hash: AccountId -> nat, c: Command, period: Option<string>)
    requires |j.shards| == SHARDS
    ensures Imbalance(j, hash, c, period) == 0 <==> KeepsBalance(j, hash, c, period)
  {
  }

  /** The imbalances of a run's commands, added up. */
  function TotalImbalance(hash: AccountId -> nat, commands: seq<Command>, period: Option<string>): int {
    if commands == [] then 0
    else
      var before := commands[..|commands| - 1];
      TotalImbalance(hash, before, period) + Imbalance(Run(hash, before), hash, commands[|commands| - 1], period)
  }

  /** Debits less credits after any run, in all or in a period's slice, are the imbalances of its commands added up. */
  lemma {:induction false} NetIsTotalImbalance(hash: AccountId -> nat, commands: seq<Command>, period: Option<string>)
    ensures Measure(History(hash, commands), NetIn(period)) == TotalImbalance(hash, commands, period)
    ensures Measure(Filtered(AllLegs(Run(hash, commands).shards), period), Signed)
        == TotalImbalance(hash, commands, period)
  {
    HistoryMoves(hash, commands, period);
    RunKeeps(hash, commands, NetIn(period));
    var legs := AllLegs(Run(hash, commands).shards);
    if period.Some? {
      SliceMeasure(legs, period.value, Signed, NetIn(period));
    } else {
      MeasureSame(legs, Signed, NetIn(period));
    }
  }

  lemma {:induction false} HistoryMoves(hash: AccountId -> nat, commands: seq<Command>, period: Option<string>)
    ensures Measure(History(hash, commands), NetIn(period)) == TotalImbalance(hash, commands, period)
  {
    if commands != [] {
      var n := |commands| - 1;
      HistoryMoves(hash, commands[..n], period);
      MeasureAppend(History(hash, commands[..n]), WrittenBy(Run(hash, commands[..n]), hash, commands[n]),
          NetIn(period));
      CommandMoves(Run(hash, commands[..n]), hash, commands[n], period);
    }
  }

  /** The slice of the shard logs balances. */
  ghost predicate InBalance(hash: AccountId -> nat, commands: seq<Command>, period: Option<string>) {
    Measure(Filtered(AllLegs(Run(hash, commands).shards), period), Signed) == 0
  }

  /**
   * Debits equal credits at every point of a run, in all or in a period's slice, if and only if
   * every guarded post admitted to it balances up to its first repeated account.
   */
  lemma {:induction false} BooksBalanceIff(hash: AccountId -> nat, commands: seq<Command>, period: Option<string>)
    ensures (forall n :: 0 <= n <= |commands| ==> InBalance(hash, commands[..n], period))
       <==> forall i :: 0 <= i < |commands| ==> KeepsBalance(Run(hash, commands[..i]), hash, commands[i], period)
  {
    forall n | 0 <= n <= |commands| ensures InBalance(hash, commands[..n], period)
        <==> TotalImbalance(hash, commands[..n], period) == 0 {
      NetIsTotalImbalance(hash, commands[..n], period);
    }
    forall i | 0 <= i < |commands|
      ensures TotalImbalance(hash, commands[..i + 1], period)
          == TotalImbalance(hash, commands[..i], period)
              + Imbalance(Run(hash, commands[..i]), hash, commands[i], period)
      ensures Imbalance(Run(hash, commands[..i]), hash, commands[i], period) == 0
          <==> KeepsBalance(Run(hash, commands[..i]), hash, commands[i], period)
    {
      assert commands[..i + 1][..i] == commands[..i];
      MovesNothingIff(Run(hash, commands[..i]), hash, commands[i], period);
    }
    if forall n :: 0 <= n <= |commands| ==> InBalance(hash, commands[..n], period) {
      forall i | 0 <= i < |commands| ensures KeepsBalance(Run(hash, commands[..i]), hash, commands[i], period) {
        assert InBalance(hash, commands[..i], period) && InBalance(hash, commands[..i + 1], period);
      }
    }
    if forall i :: 0 <= i < |commands| ==> KeepsBalance(Run(hash, commands[..i]), hash, commands[i], period) {
      forall n | 0 <= n <= |commands| ensures InBalance(hash, commands[..n], period) {
        ZeroUpTo(hash, commands, period, n);
      }
    }
  }

  lemma {:induction false} ZeroUpTo(hash: AccountId -> nat, commands: seq<Command>, period: Option<string>, n: nat)
    requires n <= |commands|
    requires forall i :: 0 <= i < |commands| ==> KeepsBalance(Run(hash, commands[..i]), hash, commands[i], period)
    ensures TotalImbalance(hash, commands[..n], period) == 0
  {
    if n > 0 {
      ZeroUpTo(hash, commands, period, n - 1);
      assert commands[..n][..n - 1] == commands[..n - 1];
      MovesNothingIff(Run(hash, commands[..n - 1]), hash, commands[n - 1], period);
    }
  }

  /** Guarded posts that name each account once never unbalance the books. */
  ghost predicate CarefulCommand(c: Command) {
    c.PostCommand? && c.expected.Some? ==> DistinctAccounts(c.entries)
  }

  lemma {:induction false} CarefulKeepsBalance(j: JournalState, hash: AccountId -> nat, c: Command,
      period: Option<string>)
    requires |j.shards| == SHARDS && CarefulCommand(c)
    ensures KeepsBalance(j, hash, c, period)
  {
    if c.PostCommand? && c.expected.Some? {
      DistinctIsWhole(c.entries);
      assert c.entries[..|c.entries|] == c.entries;
    }
  }

  /** So over every run of such commands debits equal credits in all, and within every period's slice. */
  lemma {:induction false} BooksBalance(hash: AccountId -> nat, commands: seq<Command>, period: Option<string>)
    requires forall i :: 0 <= i < |commands| ==> CarefulCommand(commands[i])
    ensures Measure(History(hash, commands), NetIn(period)) == 0
    ensures Measure(Filtered(AllLegs(Run(hash, commands).shards), period), Signed) == 0
  {
    forall i | 0 <= i < |commands| ensures KeepsBalance(Run(hash, commands[..i]), hash, commands[i], period) {
      CarefulKeepsBalance(Run(hash, commands[..i]), hash, commands[i], period);
    }
    ZeroUpTo(hash, commands, period, |commands|);
    assert commands[..|commands|] == commands;
    NetIsTotalImbalance(hash, commands, period);
  }

  /** The accounts of a new journal are all at version 0. */
  lemma {:induction false} NewJournalFresh(hash: AccountId -> nat, accounts: seq<AccountId>)
    ensures FirstStale(NewJournal().shards, hash, accounts, map[]).None?
  {
    if accounts != [] {
      assert VersionOf(NewJournal().shards, hash, accounts[0]) == 0;
      NewJournalFresh(hash, accounts[1..]);
    }
  }

  /** Of two guarded legs to one new account, only the first is written. */
  lemma {:induction false} SecondLegStops(hash: AccountId -> nat, legs: seq<PostedLeg>)
    requires |legs| >= 2 && legs[0].account == legs[1].account
    ensures Written(NewJournal().shards, hash, legs, Some(map[])) == [legs[0]]
  {
    var shards := NewJournal().shards;
    var a := legs[0].account;
    assert VersionOf(shards, hash, a) == 0;
    assert PostLeg(shards, hash, legs[0], Some(map[])).Some?;
    var next := PostLeg(shards, hash, legs[0], Some(map[])).value;
    VersionsAfter(shards, hash, legs[0], Some(map[]), a);
    assert legs[1..][0] == legs[1];
    assert PostLeg(next, hash, legs[1], Some(map[])).None?;
  }

  /** One guarded post that names account 1 twice leaves a debit of 10 without a credit. */
  lemma {:induction false} RepeatedAccountUnbalances(hash: AccountId -> nat)
    ensures var entries := [LedgerEntry(1, Debit, 10), LedgerEntry(1, Debit, 5), LedgerEntry(2, Credit, 15)];
      Measure(AllLegs(Run(hash, [PostCommand(7, entries, "p", "", Some(map[]))]).shards), NetIn(None)) == 10
  {
    var entries := [LedgerEntry(1, Debit, 10), LedgerEntry(1, Debit, 5), LedgerEntry(2, Credit, 15)];
    var c := PostCommand(7, entries, "p", "", Some(map[]));
    assert [c][..0] == [];
    assert entries[1..] == [entries[1], entries[2]] && entries[1..][1..] == [entries[2]]
        && entries[1..][1..][1..] == [];
    assert Debits(entries) == 15 == Credits(entries);
    NewJournalFresh(hash, Accounts(entries));
    var legs := LegsOf(7, entries, "p", "");
    SecondLegStops(hash, legs);
    assert WrittenBy(NewJournal(), hash, c) == [legs[0]];
    assert History(hash, [c]) == [] + [legs[0]] == [legs[0]];
    RunKeeps(hash, [c], NetIn(None));
    MeasureOne(legs[0], NetIn(None));
  }
}
