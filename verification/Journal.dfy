/** The sharded multi-account journal. */
module Journal {
  import opened Wrappers
  import opened EventStore

  type AccountId = nat

  datatype EntrySide = Debit | Credit

  datatype LedgerEntry = LedgerEntry(account: AccountId, side: EntrySide, amount: int)

  datatype PostedLeg = PostedLeg(txId: nat, account: AccountId, side: EntrySide, amount: int, period: string,
      memo: string)

  datatype AccountBalance = AccountBalance(debits: int, credits: int)

  datatype PeriodStatus = Open | SoftClose | Reconciling | Closed | Locked

  datatype Shard = Shard(store: Store<AccountId, PostedLeg>, balances: map<AccountId, AccountBalance>)

  datatype JournalState = JournalState(shards: seq<Shard>, periods: map<string, PeriodStatus>)

  datatype JournalError =
    | TooFewEntries
    | Unbalanced(debits: int, credits: int)
    | PeriodClosed(period: string)
    | StaleVersion(account: AccountId, expected: nat, current: nat)

  const SHARDS := 64
  const ZERO := AccountBalance(0, 0)

  // ----- Double entry -----

  function Debits(entries: seq<LedgerEntry>): int {
    if entries == [] then 0 else (if entries[0].side == Debit then entries[0].amount else 0) + Debits(entries[1..])
  }

  function Credits(entries: seq<LedgerEntry>): int {
    if entries == [] then 0 else (if entries[0].side == Credit then entries[0].amount else 0) + Credits(entries[1..])
  }

  function Validate(entries: seq<LedgerEntry>): Option<JournalError> {
    if |entries| < 2 then Some(TooFewEntries)
    else if Debits(entries) != Credits(entries) then Some(Unbalanced(Debits(entries), Credits(entries)))
    else None
  }

  // ----- Balances -----

  function BalanceIn(balances: map<AccountId, AccountBalance>, a: AccountId): AccountBalance {
    if a in balances then balances[a] else ZERO
  }

  /** One leg folded into a balance map: the shard's update, and the projection's. */
  function ApplyLeg(balances: map<AccountId, AccountBalance>, leg: PostedLeg): map<AccountId, AccountBalance> {
    var b := BalanceIn(balances, leg.account);
    balances[leg.account := match leg.side
      case Debit => b.(debits := b.debits + leg.amount)
      case Credit => b.(credits := b.credits + leg.amount)]
  }

  function Replay(legs: seq<PostedLeg>): map<AccountId, AccountBalance> {
    if legs == [] then map[] else ApplyLeg(Replay(legs[..|legs| - 1]), legs[|legs| - 1])
  }

  /** All legs, shard after shard, as a rebuild reads them. */
  function AllLegs(shards: seq<Shard>): seq<PostedLeg> {
    if shards == [] then [] else Payloads(shards[0].store.log) + AllLegs(shards[1..])
  }

  function InPeriod(legs: seq<PostedLeg>, period: string): seq<PostedLeg> {
    if legs == [] then []
    else InPeriod(legs[..|legs| - 1], period) + if legs[|legs| - 1].period == period then [legs[|legs| - 1]] else []
  }

  // ----- Posting -----

  /** `hash` stands for the source's hasher, of which nothing is assumed. */
  function ShardIndex(hash: AccountId -> nat, a: AccountId): nat {
    hash(a) % SHARDS
  }

  function VersionOf(shards: seq<Shard>, hash: AccountId -> nat, a: AccountId): nat
    requires |shards| == SHARDS
  {
    Version(shards[ShardIndex(hash, a)].store, a)
  }

  function BalanceOf(shards: seq<Shard>, hash: AccountId -> nat, a: AccountId): AccountBalance
    requires |shards| == SHARDS
  {
    BalanceIn(shards[ShardIndex(hash, a)].balances, a)
  }

  function Want(expected: map<AccountId, nat>, a: AccountId): nat {
    if a in expected then expected[a] else 0
  }

  /** Sorted and without repetition, as the accounts of a transaction are visited. */
  function InsertAccount(a: AccountId, s: seq<AccountId>): seq<AccountId> {
    if s == [] || a < s[0] then [a] + s else if a == s[0] then s else [s[0]] + InsertAccount(a, s[1..])
  }

  function Accounts(entries: seq<LedgerEntry>): seq<AccountId> {
    if entries == [] then [] else InsertAccount(entries[0].account, Accounts(entries[1..]))
  }

  /** The first account whose version is not the one the caller expects. */
  function FirstStale(shards: seq<Shard>, hash: AccountId -> nat, accounts: seq<AccountId>,
      expected: map<AccountId, nat>): Option<JournalError>
    requires |shards| == SHARDS
  {
    if accounts == [] then None
    else
      var a := accounts[0];
      if VersionOf(shards, hash, a) != Want(expected, a)
          then Some(StaleVersion(a, Want(expected, a), VersionOf(shards, hash, a)))
      else FirstStale(shards, hash, accounts[1..], expected)
  }

  function LegOf(txId: nat, e: LedgerEntry, period: string, memo: string): PostedLeg {
    PostedLeg(txId, e.account, e.side, e.amount, period, memo)
  }

  /** One leg appended to its account's shard; a guarded append fails unless it is the expected next version. */
  function PostLeg(shards: seq<Shard>, hash: AccountId -> nat, leg: PostedLeg,
      expected: Option<map<AccountId, nat>>): (r: Option<seq<Shard>>)
    requires |shards| == SHARDS
    ensures r.Some? ==> |r.value| == SHARDS
  {
    var i := ShardIndex(hash, leg.account);
    var next := if expected.Some? then Want(expected.value, leg.account) + 1
        else Version(shards[i].store, leg.account) + 1;
    match AppendVersioned(shards[i].store, leg.account, leg, next)
    case Err(_) => None
    case Ok(store) => Some(shards[i := Shard(store, ApplyLeg(shards[i].balances, leg))])
  }

  /** The legs appended one by one. A conflict stops the loop where it is: earlier legs stay. */
  function PostLegs(shards: seq<Shard>, hash: AccountId -> nat, legs: seq<PostedLeg>,
      expected: Option<map<AccountId, nat>>): (r: (seq<Shard>, Option<JournalError>))
    requires |shards| == SHARDS
    ensures |r.0| == SHARDS
    decreases |legs|
  {
    if legs == [] then (shards, None)
    else match PostLeg(shards, hash, legs[0], expected)
      case None =>
        var want := if expected.Some? then Want(expected.value, legs[0].account) else 0;
        (shards, Some(StaleVersion(legs[0].account, want, want + 1)))
      case Some(next) => PostLegs(next, hash, legs[1..], expected)
  }

  function LegsOf(txId: nat, entries: seq<LedgerEntry>, period: string, memo: string): (r: seq<PostedLeg>)
    ensures |r| == |entries|
  {
    seq(|entries|, i requires 0 <= i < |entries| => LegOf(txId, entries[i], period, memo))
  }

  predicate IsClosed(periods: map<string, PeriodStatus>, period: string) {
    period in periods && (periods[period] == Closed || periods[period] == Locked)
  }

  /** Why a post is refused before anything is written, if it is. */
  function Refusal(j: JournalState, hash: AccountId -> nat, entries: seq<LedgerEntry>, period: string,
      expected: Option<map<AccountId, nat>>): Option<JournalError>
    requires |j.shards| == SHARDS
  {
    if Validate(entries).Some? then Validate(entries)
    else if IsClosed(j.periods, period) then Some(PeriodClosed(period))
    else if expected.Some? then FirstStale(j.shards, hash, Accounts(entries), expected.value)
    else None
  }

  function Post(j: JournalState, hash: AccountId -> nat, txId: nat, entries: seq<LedgerEntry>, period: string,
      memo: string, expected: Option<map<AccountId, nat>>): (r: (JournalState, Result<nat, JournalError>))
    requires |j.shards| == SHARDS
    ensures |r.0.shards| == SHARDS
  {
    match Refusal(j, hash, entries, period, expected)
    case Some(e) => (j, Err(e))
    case None =>
      var (shards, failed) := PostLegs(j.shards, hash, LegsOf(txId, entries, period, memo), expected);
      (j.(shards := shards), if failed.Some? then Err(failed.value) else Ok(txId))
  }

  function NewJournal(): (j: JournalState)
    ensures |j.shards| == SHARDS
  {
    JournalState(seq(SHARDS, _ => Shard(Store([], map[]), map[])), map[])
  }

  // ----- The engine -----

  class JournalEngine {
    const hash: AccountId -> nat
    var shards: seq<Shard>
    var periods: map<string, PeriodStatus>

    ghost function State(): JournalState
      reads this
    {
      JournalState(shards, periods)
    }

    ghost predicate Valid()
      reads this
    {
      |shards| == SHARDS
    }

    constructor (hash: AccountId -> nat)
      ensures Valid() && this.hash == hash && State() == NewJournal()
    {
      this.hash := hash;
      shards := seq(SHARDS, _ => Shard(Store([], map[]), map[]));
      periods := map[];
    }

    method SetPeriodStatus(period: string, status: PeriodStatus)
      requires Valid()
      modifies this
      ensures Valid() && State() == old(State()).(periods := old(periods)[period := status])
    {
      periods := periods[period := status];
    }

    method CheckVersions(accounts: seq<AccountId>, expected: map<AccountId, nat>) returns (r: Option<JournalError>)
      requires Valid()
      ensures r == FirstStale(shards, hash, accounts, expected)
    {
      for i := 0 to |accounts|
        invariant FirstStale(shards, hash, accounts, expected) == FirstStale(shards, hash, accounts[i..], expected)
      {
        var a := accounts[i];
        assert accounts[i..][1..] == accounts[i + 1..];
        var want := Want(expected, a);
        var current := VersionOf(shards, hash, a);
        if current != want {
          return Some(StaleVersion(a, want, current));
        }
      }
      assert accounts[|accounts|..] == [];
      r := None;
    }

    /** `post_transaction`, guarded when `expected` is given. */
    method PostTransaction(txId: nat, entries: seq<LedgerEntry>, period: string, memo: string,
        expected: Option<map<AccountId, nat>>)
      returns (r: Result<nat, JournalError>)
      requires Valid()
      modifies this
      ensures Valid()
      ensures (State(), r) == Post(old(State()), hash, txId, entries, period, memo, expected)
    {
      var invalid := Validate(entries);
      if invalid.Some? {
        return Err(invalid.value);
      }
      if period in periods && (periods[period] == Closed || periods[period] == Locked) {
        return Err(PeriodClosed(period));
      }
      if expected.Some? {
        var stale := CheckVersions(Accounts(entries), expected.value);
        if stale.Some? {
          return Err(stale.value);
        }
      }
      ghost var legs := LegsOf(txId, entries, period, memo);
      for i := 0 to |entries|
        invariant Valid() && periods == old(periods)
        invariant PostLegs(old(shards), hash, legs, expected) == PostLegs(shards, hash, legs[i..], expected)
      {
        var leg := LegOf(txId, entries[i], period, memo);
        assert legs[i..][0] == leg && legs[i..][1..] == legs[i + 1..];
        var posted := PostLeg(shards, hash, leg, expected);
        match posted {
          case None =>
            var want := if expected.Some? then Want(expected.value, leg.account) else 0;
            return Err(StaleVersion(leg.account, want, want + 1));
          case Some(next) => shards := next;
        }
      }
      assert legs[|entries|..] == [];
      r := Ok(txId);
    }

    /** Replays every shard's log from nothing, keeping only `period` when one is given. */
    method Rebuild(period: Option<string>) returns (balances: map<AccountId, AccountBalance>)
      requires Valid()
      ensures balances == Replay(Filtered(AllLegs(shards), period))
    {
      var legs: seq<PostedLeg> := [];
      for i := 0 to |shards|
        invariant legs + Filtered(AllLegs(shards[i..]), period) == Filtered(AllLegs(shards), period)
      {
        var kept := CollectLegs(shards[i].store.log, period);
        FilteredSplit(shards, i, period, legs);
        legs := legs + kept;
      }
      assert shards[|shards|..] == [];
      assert legs == Filtered(AllLegs(shards), period);
      balances := ReplayLegs(legs);
    }
  }

  method CollectLegs(log: seq<StoredEvent<AccountId, PostedLeg>>, period: Option<string>) returns (legs: seq<PostedLeg>)
    ensures legs == Filtered(Payloads(log), period)
  {
    legs := [];
    for k := 0 to |log|
      invariant legs == Filtered(Payloads(log)[..k], period)
    {
      assert Payloads(log)[..k + 1][..k] == Payloads(log)[..k];
      assert Payloads(log)[..k + 1] == Payloads(log)[..k] + [log[k].payload];
      if period.None? || log[k].payload.period == period.value {
        legs := legs + [log[k].payload];
      }
    }
    assert Payloads(log)[..|log|] == Payloads(log);
  }

  method ReplayLegs(legs: seq<PostedLeg>) returns (balances: map<AccountId, AccountBalance>)
    ensures balances == Replay(legs)
  {
    balances := map[];
    for i := 0 to |legs|
      invariant balances == Replay(legs[..i])
    {
      assert legs[..i + 1][..i] == legs[..i];
      balances := ApplyLeg(balances, legs[i]);
    }
    assert legs[..|legs|] == legs;
  }

  /** One shard moves from what is still to be read to what has been. */
  lemma {:induction false} FilteredSplit(shards: seq<Shard>, i: nat, period: Option<string>, done: seq<PostedLeg>)
    requires i < |shards|
    ensures (done + Filtered(Payloads(shards[i].store.log), period)) + Filtered(AllLegs(shards[i + 1..]), period)
         == done + Filtered(AllLegs(shards[i..]), period)
  {
    assert shards[i..][1..] == shards[i + 1..];
    FilteredAppend(Payloads(shards[i].store.log), AllLegs(shards[i + 1..]), period);
  }

  function Filtered(legs: seq<PostedLeg>, period: Option<string>): seq<PostedLeg> {
    if period.Some? then InPeriod(legs, period.value) else legs
  }

  lemma {:induction false} FilteredAppend(a: seq<PostedLeg>, b: seq<PostedLeg>, period: Option<string>)
    ensures Filtered(a + b, period) == Filtered(a, period) + Filtered(b, period)
  {
    if period.Some? && b != [] {
      var n := |b| - 1;
      assert (a + b)[..|a + b| - 1] == a + b[..n];
      FilteredAppend(a, b[..n], period);
    } else {
      assert b == [] ==> a + b == a;
    }
  }
}
