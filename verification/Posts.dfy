/** What one post answers and writes, stated on the entries, the shard logs and the caller's versions. */
module Posts {
  import opened Sums
  import opened Wrappers
  import opened EventStore
  import opened Journal
  import opened JournalRuns

  // ----- The question a post asks -----

  function DebitAmounts(entries: seq<LedgerEntry>): (r: seq<int>)
    ensures |r| == |entries|
  {
    seq(|entries|, i requires 0 <= i < |entries| => if entries[i].side == Debit then entries[i].amount else 0)
  }

  function CreditAmounts(entries: seq<LedgerEntry>): (r: seq<int>)
    ensures |r| == |entries|
  {
    seq(|entries|, i requires 0 <= i < |entries| => if entries[i].side == Credit then entries[i].amount else 0)
  }

  /** How many events of the account its shard's log holds. */
  function EventCount(shards: seq<Shard>, hash: AccountId -> nat, a: AccountId): nat
    requires |shards| == SHARDS
  {
    var log := shards[hash(a) % 64].store.log;
    |set i: nat | i < |log| && log[i].aggregate == a|
  }

  /** The log holds as many events of the account as the caller says, none when the caller does not say. */
  predicate UpToDate(shards: seq<Shard>, hash: AccountId -> nat, expected: map<AccountId, nat>, a: AccountId)
    requires |shards| == SHARDS
  {
    && (a in expected ==> EventCount(shards, hash, a) == expected[a])
    && (a !in expected ==> EventCount(shards, hash, a) == 0)
  }

  ghost predicate Names(entries: seq<LedgerEntry>, a: AccountId) {
    exists i :: 0 <= i < |entries| && entries[i].account == a
  }

  /** At least two entries, as much debited as credited, and a period that takes entries. */
  ghost predicate Postable(j: JournalState, entries: seq<LedgerEntry>, period: string) {
    && |entries| >= 2
    && Sum(DebitAmounts(entries)) == Sum(CreditAmounts(entries))
    && (period in j.periods ==> j.periods[period] == Open || j.periods[period] == SoftClose
                                || j.periods[period] == Reconciling)
  }

  /** The least account named by the entries that is not up to date. */
  ghost predicate LeastStale(shards: seq<Shard>, hash: AccountId -> nat, entries: seq<LedgerEntry>,
      expected: map<AccountId, nat>, a: AccountId)
    requires |shards| == SHARDS
  {
    && Names(entries, a) && !UpToDate(shards, hash, expected, a)
    && forall b :: Names(entries, b) && !UpToDate(shards, hash, expected, b) ==> a <= b
  }

  lemma {:induction false} SidesAreSums(entries: seq<LedgerEntry>)
    ensures Debits(entries) == Sum(DebitAmounts(entries)) && Credits(entries) == Sum(CreditAmounts(entries))
  {
    if entries != [] {
      SidesAreSums(entries[1..]);
      assert DebitAmounts(entries)[1..] == DebitAmounts(entries[1..]);
      assert CreditAmounts(entries)[1..] == CreditAmounts(entries[1..]);
    }
  }

  lemma {:induction false} StreamCount<E>(log: seq<StoredEvent<AccountId, E>>, a: AccountId)
    ensures |Stream(log, a)| == |set i: nat | i < |log| && log[i].aggregate == a|
  {
    if log != [] {
      var n := |log| - 1;
      StreamCount(log[..n], a);
      var before := set i: nat | i < n && log[..n][i].aggregate == a;
      var after := set i: nat | i < |log| && log[i].aggregate == a;
      assert after == if log[n].aggregate == a then before + {n} else before;
    }
  }

  /** Versions count events, and an expectation is met exactly when the account is up to date. */
  lemma {:induction false} VersionIsCount(shards: seq<Shard>, hash: AccountId -> nat, expected: map<AccountId, nat>,
      a: AccountId)
    requires ShardsOk(shards, hash)
    ensures VersionOf(shards, hash, a) == EventCount(shards, hash, a)
    ensures VersionOf(shards, hash, a) == Want(expected, a) <==> UpToDate(shards, hash, expected, a)
  {
    var i := ShardIndex(hash, a);
    assert ShardOk(shards[i], hash, i);
    StreamCount(shards[i].store.log, a);
  }

  ghost predicate Increasing(s: seq<AccountId>) { forall i, k :: 0 <= i < k < |s| ==> s[i] < s[k] }

  lemma {:induction false} InsertIncreasing(a: AccountId, s: seq<AccountId>)
    requires Increasing(s)
    ensures Increasing(InsertAccount(a, s))
  {
    if s != [] && a > s[0] {
      var t := InsertAccount(a, s[1..]);
      InsertIncreasing(a, s[1..]);
      forall k | 0 <= k < |t| ensures s[0] < t[k] {
        InAccounts(a, s[1..], t[k]);
        assert t[k] in t;
      }
    }
  }

  lemma {:induction false} AccountsIncreasing(entries: seq<LedgerEntry>)
    ensures Increasing(Accounts(entries))
    ensures forall a :: a in Accounts(entries) <==> Names(entries, a)
  {
    if entries != [] {
      var rest := entries[1..];
      AccountsIncreasing(rest);
      InsertIncreasing(entries[0].account, Accounts(rest));
      forall a ensures a in Accounts(entries) <==> Names(entries, a) {
        InAccounts(entries[0].account, Accounts(rest), a);
        if Names(rest, a) {
          var i :| 0 <= i < |rest| && rest[i].account == a;
          assert entries[i + 1].account == a;
        }
        if Names(entries, a) && a != entries[0].account {
          var i :| 0 <= i < |entries| && entries[i].account == a;
          assert rest[i - 1].account == a;
        }
      }
    }
  }

  /** The check over sorted accounts reports the first that is not up to date, or finds none. */
  lemma {:induction false} FirstStaleIs(shards: seq<Shard>, hash: AccountId -> nat, accounts: seq<AccountId>,
      expected: map<AccountId, nat>)
    requires ShardsOk(shards, hash) && Increasing(accounts)
    ensures match FirstStale(shards, hash, accounts, expected)
            case None => forall a :: a in accounts ==> UpToDate(shards, hash, expected, a)
            case Some(e) =>
              && e.StaleVersion? && e.account in accounts && !UpToDate(shards, hash, expected, e.account)
              && e.expected == Want(expected, e.account) && e.current == EventCount(shards, hash, e.account)
              && forall b :: b in accounts && !UpToDate(shards, hash, expected, b) ==> e.account <= b
  {
    if accounts != [] {
      VersionIsCount(shards, hash, expected, accounts[0]);
      FirstStaleIs(shards, hash, accounts[1..], expected);
    }
  }

  // ----- The answer -----

  /** Every way a post can be refused before anything is written, and that there is no other. */
  lemma {:induction false} RefusedIff(j: JournalState, hash: AccountId -> nat, entries: seq<LedgerEntry>,
      period: string, expected: Option<map<AccountId, nat>>)
    requires ShardsOk(j.shards, hash)
    ensures Refusal(j, hash, entries, period, expected).None?
       <==> Postable(j, entries, period)
            && (expected.Some? ==> forall i :: 0 <= i < |entries| ==>
                UpToDate(j.shards, hash, expected.value, entries[i].account))
    ensures Refusal(j, hash, entries, period, expected) == Some(TooFewEntries) <==> |entries| < 2
    ensures forall d, c ::
        Refusal(j, hash, entries, period, expected) == Some(Unbalanced(d, c))
        <==> |entries| >= 2 && d == Sum(DebitAmounts(entries)) && c == Sum(CreditAmounts(entries)) && d != c
    ensures forall p ::
        Refusal(j, hash, entries, period, expected) == Some(PeriodClosed(p))
        <==> p == period && |entries| >= 2 && Sum(DebitAmounts(entries)) == Sum(CreditAmounts(entries))
             && !Postable(j, entries, period)
    ensures forall a, w, v ::
        Refusal(j, hash, entries, period, expected) == Some(StaleVersion(a, w, v))
        <==> Postable(j, entries, period) && expected.Some?
             && LeastStale(j.shards, hash, entries, expected.value, a)
             && w == (if a in expected.value then expected.value[a] else 0) && v == EventCount(j.shards, hash, a)
  {
    SidesAreSums(entries);
    if Postable(j, entries, period) && expected.Some? {
      AccountsIncreasing(entries);
      FirstStaleIs(j.shards, hash, Accounts(entries), expected.value);
      forall i | 0 <= i < |entries| ensures Names(entries, entries[i].account) {}
    }
  }

  /**
   * A guarded post of distinct accounts goes through exactly when it can be posted and the log of
   * every account it names holds as many events as the caller expects. Otherwise nothing changes, and
   * a conflict names the least account that is not up to date, with both numbers.
   */
  lemma {:induction false} GuardedPostIff(j: JournalState, hash: AccountId -> nat, txId: nat,
      entries: seq<LedgerEntry>, period: string, memo: string, expected: map<AccountId, nat>)
    requires ShardsOk(j.shards, hash) && DistinctAccounts(entries)
    ensures var (after, r) := Post(j, hash, txId, entries, period, memo, Some(expected));
      && (r == Ok(txId) <==>
            Postable(j, entries, period)
            && forall i :: 0 <= i < |entries| ==> UpToDate(j.shards, hash, expected, entries[i].account))
      && (r != Ok(txId) ==> r.Err? && after == j)
      && (forall a, w, v ::
            r == Err(StaleVersion(a, w, v))
            <==> Postable(j, entries, period) && LeastStale(j.shards, hash, entries, expected, a)
                 && w == (if a in expected then expected[a] else 0) && v == EventCount(j.shards, hash, a))
  {
    RefusedIff(j, hash, entries, period, Some(expected));
    PostSucceedsIff(j, hash, txId, entries, period, memo, Some(expected));
  }

  /** An unguarded post goes through exactly when it can be posted; otherwise nothing changes. */
  lemma {:induction false} UnguardedPostIff(j: JournalState, hash: AccountId -> nat, txId: nat,
      entries: seq<LedgerEntry>, period: string, memo: string)
    requires ShardsOk(j.shards, hash)
    ensures var (after, r) := Post(j, hash, txId, entries, period, memo, None);
      && (r == Ok(txId) <==> Postable(j, entries, period))
      && (r != Ok(txId) ==> r.Err? && after == j)
  {
    RefusedIff(j, hash, entries, period, None);
    PostSucceedsIff(j, hash, txId, entries, period, memo, None);
  }

  // ----- What is written -----

  /** The legs that the entries bring to one account, in their order. */
  function LegsTo(txId: nat, entries: seq<LedgerEntry>, period: string, memo: string, a: AccountId): seq<PostedLeg> {
    if entries == [] then []
    else
      (if entries[0].account == a then [PostedLeg(txId, a, entries[0].side, entries[0].amount, period, memo)] else [])
      + LegsTo(txId, entries[1..], period, memo, a)
  }

  /** The account's own events, in the order of its shard's log. */
  function LoggedTo(shards: seq<Shard>, hash: AccountId -> nat, a: AccountId): seq<PostedLeg>
    requires |shards| == SHARDS
  {
    Payloads(Stream(shards[hash(a) % 64].store.log, a))
  }

  lemma {:induction false} LegAppended(shards: seq<Shard>, hash: AccountId -> nat, leg: PostedLeg,
      expected: Option<map<AccountId, nat>>, a: AccountId)
    requires |shards| == SHARDS && PostLeg(shards, hash, leg, expected).Some?
    ensures LoggedTo(PostLeg(shards, hash, leg, expected).value, hash, a)
        == LoggedTo(shards, hash, a) + if leg.account == a then [leg] else []
  {
    var k := ShardIndex(hash, leg.account);
    var log := shards[k].store.log;
    var next := PostLeg(shards, hash, leg, expected).value;
    assert next[k].store.log[..|log|] == log;
  }

  function OfAccount(legs: seq<PostedLeg>, a: AccountId): seq<PostedLeg> {
    if legs == [] then [] else (if legs[0].account == a then [legs[0]] else []) + OfAccount(legs[1..], a)
  }

  lemma {:induction false} LegsAppended(shards: seq<Shard>, hash: AccountId -> nat, legs: seq<PostedLeg>,
      expected: Option<map<AccountId, nat>>, a: AccountId)
    requires |shards| == SHARDS
    ensures LoggedTo(PostLegs(shards, hash, legs, expected).0, hash, a)
        == LoggedTo(shards, hash, a) + OfAccount(Written(shards, hash, legs, expected), a)
    decreases |legs|
  {
    if legs != [] {
      var next := PostLeg(shards, hash, legs[0], expected);
      if next.Some? {
        LegAppended(shards, hash, legs[0], expected, a);
        LegsAppended(next.value, hash, legs[1..], expected, a);
        var rest := Written(next.value, hash, legs[1..], expected);
        assert Written(shards, hash, legs, expected) == [legs[0]] + rest;
        assert ([legs[0]] + rest)[1..] == rest;
      }
    }
  }

  lemma {:induction false} LegsOfAccount(txId: nat, entries: seq<LedgerEntry>, period: string, memo: string,
      a: AccountId)
    ensures OfAccount(LegsOf(txId, entries, period, memo), a) == LegsTo(txId, entries, period, memo, a)
  {
    if entries != [] {
      LegsOfAccount(txId, entries[1..], period, memo, a);
      assert LegsOf(txId, entries, period, memo)[1..] == LegsOf(txId, entries[1..], period, memo);
    }
  }

  /**
   * An admitted post appends to each account's events the legs of its own entries, or under a guard
   * of those before the first entry that names an account again; no other account's events change.
   */
  lemma {:induction false} PostAppends(j: JournalState, hash: AccountId -> nat, txId: nat, entries: seq<LedgerEntry>,
      period: string, memo: string, expected: Option<map<AccountId, nat>>, k: nat, a: AccountId)
    requires ShardsOk(j.shards, hash) && Refusal(j, hash, entries, period, expected).None? && k <= |entries|
    requires if expected.None? then k == |entries|
        else DistinctAccounts(entries[..k]) && (k < |entries| ==> Names(entries[..k], entries[k].account))
    ensures LoggedTo(Post(j, hash, txId, entries, period, memo, expected).0.shards, hash, a)
        == LoggedTo(j.shards, hash, a) + LegsTo(txId, entries[..k], period, memo, a)
  {
    WritesKept(j, hash, txId, entries, period, memo, expected);
    if expected.None? {
      assert entries[..k] == entries;
    } else {
      PrefixUnique(entries, k);
    }
    LegsAppended(j.shards, hash, LegsOf(txId, entries, period, memo), expected, a);
    LegsOfAccount(txId, entries[..k], period, memo, a);
  }

  lemma {:induction false} OneMoreOf(shards: seq<Shard>, hash: AccountId -> nat, leg: PostedLeg,
      expected: Option<map<AccountId, nat>>, rest: seq<PostedLeg>)
    requires |shards| == SHARDS && PostLeg(shards, hash, leg, expected).Some?
    ensures var next := PostLeg(shards, hash, leg, expected).value;
      forall m :: 0 <= m < |rest| ==>
        VersionOf(next, hash, rest[m].account)
        == VersionOf(shards, hash, rest[m].account) + if rest[m].account == leg.account then 1 else 0
  {
    forall m | 0 <= m < |rest|
      ensures VersionOf(PostLeg(shards, hash, leg, expected).value, hash, rest[m].account)
        == VersionOf(shards, hash, rest[m].account) + if rest[m].account == leg.account then 1 else 0
    {
      VersionsAfter(shards, hash, leg, expected, rest[m].account);
    }
  }

  /** The loop over fresh legs stops at the first that names an account again, and the conflict says so. */
  lemma {:induction false} StopsAt(shards: seq<Shard>, hash: AccountId -> nat, legs: seq<PostedLeg>,
      expected: map<AccountId, nat>, k: nat)
    requires |shards| == SHARDS && k < |legs|
    requires forall m :: 0 <= m < k ==> VersionOf(shards, hash, legs[m].account) == Want(expected, legs[m].account)
    requires forall i, m :: 0 <= i < m < k ==> legs[i].account != legs[m].account
    requires var v, w := VersionOf(shards, hash, legs[k].account), Want(expected, legs[k].account);
      v > w || (v == w && exists i :: 0 <= i < k && legs[i].account == legs[k].account)
    ensures var w := Want(expected, legs[k].account);
      PostLegs(shards, hash, legs, Some(expected)).1 == Some(StaleVersion(legs[k].account, w, w + 1))
    decreases k
  {
    if k > 0 {
      var next, rest := PostLeg(shards, hash, legs[0], Some(expected)).value, legs[1..];
      OneMoreOf(shards, hash, legs[0], Some(expected), rest);
      assert rest[k - 1] == legs[k];
      if VersionOf(shards, hash, legs[k].account) == Want(expected, legs[k].account) {
        var i :| 0 <= i < k && legs[i].account == legs[k].account;
        if i > 0 { assert rest[i - 1].account == rest[k - 1].account; }
      }
      forall m | 0 <= m < k - 1
        ensures VersionOf(next, hash, rest[m].account) == Want(expected, rest[m].account)
      {
        assert rest[m] == legs[m + 1];
      }
      StopsAt(next, hash, rest, expected, k - 1);
    }
  }

  /** A guarded post that passes every check and names an account again at `k` conflicts on that account. */
  lemma {:induction false} RepeatedConflict(j: JournalState, hash: AccountId -> nat, txId: nat,
      entries: seq<LedgerEntry>, period: string, memo: string, expected: map<AccountId, nat>, k: nat)
    requires ShardsOk(j.shards, hash) && Refusal(j, hash, entries, period, Some(expected)).None? && k < |entries|
    requires DistinctAccounts(entries[..k]) && Names(entries[..k], entries[k].account)
    ensures var a := entries[k].account; var w := if a in expected then expected[a] else 0;
      Post(j, hash, txId, entries, period, memo, Some(expected)).1 == Err(StaleVersion(a, w, w + 1))
  {
    var legs := LegsOf(txId, entries, period, memo);
    AdmittedIsFresh(j, hash, txId, entries, period, memo, Some(expected));
    forall i, m | 0 <= i < m < k ensures legs[i].account != legs[m].account {
      assert entries[..k][i].account != entries[..k][m].account;
    }
    var i :| 0 <= i < k && entries[..k][i].account == entries[k].account;
    assert legs[i].account == legs[k].account;
    StopsAt(j.shards, hash, legs, expected, k);
  }

  lemma {:induction false} PrefixUnique(entries: seq<LedgerEntry>, k: nat)
    requires k <= |entries| && DistinctAccounts(entries[..k])
    requires k < |entries| ==> Names(entries[..k], entries[k].account)
    ensures DistinctPrefix(entries) == k
  {
    var m := DistinctPrefix(entries);
    forall i, l | 0 <= i < l < k ensures entries[i].account != entries[l].account {
      assert entries[i] == entries[..k][i] && entries[l] == entries[..k][l];
    }
    forall i, l | 0 <= i < l < m ensures entries[i].account != entries[l].account {
      assert entries[i] == entries[..m][i] && entries[l] == entries[..m][l];
    }
    if k < |entries| {
      var i :| 0 <= i < k && entries[..k][i].account == entries[k].account;
      assert entries[i].account == entries[k].account;
    }
  }

  /** The amounts that the legs bring to one side. */
  function OnSide(legs: seq<PostedLeg>, side: EntrySide): (r: seq<int>)
    ensures |r| == |legs|
  {
    seq(|legs|, i requires 0 <= i < |legs| => if legs[i].side == side then legs[i].amount else 0)
  }

  /** A live balance is what the account's own events debited and credited. */
  lemma {:induction false} BalanceOfEvents(shards: seq<Shard>, hash: AccountId -> nat, a: AccountId)
    requires ShardsOk(shards, hash)
    ensures BalanceOf(shards, hash, a)
        == AccountBalance(Sum(OnSide(LoggedTo(shards, hash, a), Debit)), Sum(OnSide(LoggedTo(shards, hash, a), Credit)))
  {
    var k := ShardIndex(hash, a);
    assert ShardOk(shards[k], hash, k);
    ReplayTotals(Payloads(shards[k].store.log), a);
    StreamMeasures(shards[k].store.log, a);
  }

  lemma {:induction false} OnSideSnoc(legs: seq<PostedLeg>, leg: PostedLeg, side: EntrySide)
    ensures Sum(OnSide(legs + [leg], side)) == Sum(OnSide(legs, side)) + if leg.side == side then leg.amount else 0
  {
    var more := if leg.side == side then leg.amount else 0;
    assert OnSide(legs + [leg], side) == OnSide(legs, side) + [more];
    SumSnoc(OnSide(legs, side), more);
  }

  lemma {:induction false} StreamMeasures(log: seq<StoredEvent<AccountId, PostedLeg>>, a: AccountId)
    requires forall i :: 0 <= i < |log| ==> log[i].aggregate == log[i].payload.account
    ensures Measure(Payloads(log), DebitTo(a)) == Sum(OnSide(Payloads(Stream(log, a)), Debit))
    ensures Measure(Payloads(log), CreditTo(a)) == Sum(OnSide(Payloads(Stream(log, a)), Credit))
  {
    if log != [] {
      var n := |log| - 1;
      var leg, front := log[n].payload, Payloads(Stream(log[..n], a));
      StreamMeasures(log[..n], a);
      assert Payloads(log)[..n] == Payloads(log[..n]);
      if leg.account == a {
        assert Payloads(Stream(log, a)) == front + [leg];
        OnSideSnoc(front, leg, Debit);
        OnSideSnoc(front, leg, Credit);
      } else {
        assert Stream(log, a) == Stream(log[..n], a);
      }
    }
  }

  // ----- What a rebuild adds up -----

  /** The amounts that the legs bring to one side of the account, in the period when one is given. */
  function Collected(legs: seq<PostedLeg>, period: Option<string>, a: AccountId, side: EntrySide): (r: seq<int>)
    ensures |r| == |legs|
  {
    seq(|legs|, i requires 0 <= i < |legs| =>
      if legs[i].account == a && legs[i].side == side && (period.Some? ==> legs[i].period == period.value)
      then legs[i].amount else 0)
  }

  /** A rebuild gives every account what the legs of the period, or all legs, bring to its two sides. */
  lemma {:induction false} RebuiltBalance(legs: seq<PostedLeg>, period: Option<string>, a: AccountId)
    ensures BalanceIn(Replay(Filtered(legs, period)), a)
        == AccountBalance(Sum(Collected(legs, period, a, Debit)), Sum(Collected(legs, period, a, Credit)))
  {
    if legs != [] {
      var n := |legs| - 1;
      var leg := legs[n];
      RebuiltBalance(legs[..n], period, a);
      CollectedSnoc(legs[..n], leg, period, a, Debit);
      CollectedSnoc(legs[..n], leg, period, a, Credit);
      assert legs == legs[..n] + [leg];
      FilteredSnoc(legs[..n], leg, period);
    }
  }

  lemma {:induction false} CollectedSnoc(legs: seq<PostedLeg>, leg: PostedLeg, period: Option<string>, a: AccountId,
      side: EntrySide)
    ensures Sum(Collected(legs + [leg], period, a, side)) == Sum(Collected(legs, period, a, side))
        + if leg.account == a && leg.side == side && (period.Some? ==> leg.period == period.value) then leg.amount
          else 0
  {
    var more := if leg.account == a && leg.side == side && (period.Some? ==> leg.period == period.value) then leg.amount
        else 0;
    assert Collected(legs + [leg], period, a, side) == Collected(legs, period, a, side) + [more];
    SumSnoc(Collected(legs, period, a, side), more);
  }

  lemma {:induction false} FilteredSnoc(legs: seq<PostedLeg>, leg: PostedLeg, period: Option<string>)
    ensures var before, after := Replay(Filtered(legs, period)), Replay(Filtered(legs + [leg], period));
      after == if period.Some? && leg.period != period.value then before else ApplyLeg(before, leg)
  {
    assert (legs + [leg])[..|legs|] == legs;
    var front := Filtered(legs, period);
    assert (front + [leg])[..|front|] == front && front + [] == front;
  }
}
