# Verified models of the ERP ledger, shop-floor and fleet engines

This Dafny project models the algorithms and state machines of the ERP framework and its reference
applications, and proves the guarantees they are there for. `dafny verify dfyconfig.toml` checks all
of it.

Each component has a module that mirrors its source file: the source's records are datatypes, the
objects that update their fields are classes, its loops are methods with invariants, and each such
method is proved equal to a function of the old state. A second module, where there is one, holds
the results about that function: invariants of every run, refinements, conservation laws, and exact
conditions where the code does less than its comments say.

| modules | component |
|---|---|
| `Money`, `LargestRemainder` | apportioning an amount by integer ratios |
| `Tenders`, `Returns`, `Register`, `RungSales`, `Refunds` | splitting a total over tenders, refunds, ringing and exchanging a sale, what a sale comes to in terms of the request, several returns of one sale |
| `Outbox`, `OutboxProtocol`, `Delivery`, `Duplicates` | the outbox table, one relay pass, any number of relays as a step protocol, from the body staged to the body on the bus, and how often a row is published |
| `EventStore`, `Journal`, `JournalRuns`, `Posts` | the versioned event store, the sharded journal, its runs, and what one post answers and writes |
| `Reports`, `Statements`, `Closing` | trial balance, income statement, balance sheet and closing entries, line by line and as a whole |
| `Consolidation`, `Elimination`, `GroupBooks` | group trial balance and inter-company elimination, and what they do to each row and account |
| `MapTotals`, `Reservation`, `ReservationCalls`, `ReservationRuns`, `SplitReservation`, `SplitReplay` | what each call does to its SKU; holds, backorders, sweeps, the replayed read model, and all of it one lock section at a time |
| `Saga`, `SagaRuns`, `SagaOutcomes` | the order saga and its compensation, and what it answers and books case by case |
| `Hos`, `HosRuns`, `Breaches` | hours of service: the running clock, the interval log, the rolling window, and what is reported, in hours |
| `Anomaly`, `Flags` | streaming mean and variance, duplicates and outliers, and what a transaction is flagged for |
| `Mrp`, `MrpPaths` | bill-of-materials explosion and critical path |
| `Route`, `RouteSearch` | nearest-neighbour seed and 2-opt search |

`Wrappers`, `Numbers`, `Sums`, `Sequences` and `Sets` hold what several components use. `RungSales`,
`Posts`, `Statements`, `GroupBooks`, `ReservationCalls`, `SagaOutcomes`, `Breaches`, `Delivery` and
`Flags` state results on the inputs themselves, with plain sums, counts and numbers, so that they say
what the specification functions mean.

Conventions of the model. Money is an integer number of pieces, `unit` of them to the minor unit, so
fractions of a cent exist and rounding is explicit; `/` and `%` are used only where signs are known,
and `Money.Truncate` is the source's truncation toward zero. Means, variances and distances are
reals. A hash map that is iterated is a sequence in arbitrary order with distinct keys. Hash
functions and distances are arbitrary functions. Fresh ids, the outcome of a publish and the set of
holds found expired are inputs or arbitrary choices. A critical section is one atomic step.

Where the code falls short of its comments, the property is proved with its exact condition:

- a negative amount is apportioned without loss only if every share is a whole number of cents
  (`LargestRemainder.SumsBackIff`);
- the recorded tenders of a sale miss its total when the credit used is not a whole number of cents
  (`Register.TendersSumToTotalIff`), and such a sale cannot be returned in full, although a full return is promised to
  reproduce the original tenders (`Register.RingThenFullReturnIff`); other returns of it succeed as long as its tenders
  cover the refund (`Refunds.RungReturnSucceedsIff`);
- nothing moves a sale to returned, whatever the lifecycle in examples/pos/src/txn.rs:17-20 says, so it can be
  refunded again: full returns stay within what was paid only if there is one (`Refunds.FullReturnsIff`), and any
  series of returns exactly when the cents due per tender do (`Refunds.WithinPaidIff`); rounding alone can overrun by
  half a cent a return (`Refunds.OverrunBounded`);
- a return line is valued at the prices of all lines of its item, which is the original price only for items on one
  line (`Returns.OriginalPriceIff`, `Returns.AllLinesIsFullReturnIff`);
- an exchange whose new sale is refused leaves its return recorded (`Refunds.HalfExchangedIff`);
- a refused guarded post changes the journal when it names an account twice (`JournalRuns.HalfPostedIff`), and the
  books balance at every point of a run exactly when such posts balance up to the repeated account (`JournalRuns.BooksBalanceIff`);
- closing entries do not zero the books if retained earnings is itself a temporary account
  (`Closing.ClosingZeroes`), and do not empty the closed period's own statement if a balance came from another period
  (`Closing.PeriodEmptiedIff`);
- elimination is finished after one run only with the right directions (`Elimination.SettlesIff`), or in general when
  it left no pair an overlap (`Elimination.SecondRunEmptyIff`), and derived pairs leave out a Due-To that is not the
  last of its entity to that counterparty (`Elimination.AllPairedIff`);
- a replay of reservations differs from the live state after a backorder fill (`ReservationRuns.ReplayEqualsLiveIff`),
  and the 32-bit cast of the available count can reserve too little from a large count and anything at all from a
  negative one (`ReservationRuns.ReservesRightfulIff`);
- a receipt or return with a negative quantity, which nothing refuses, oversells a SKU when it takes more than is
  available, and nothing else does as long as calls run whole (`ReservationRuns.NeverOversoldIff`);
- the two lock sections of an order or a fill can oversell, exactly when calls under way have promised more than is
  available (`SplitReservation.OversellsIff`, `SplitReservation.NeverOversellsIff`), and a backorder is filled a second
  time exactly when another call had picked it before the first one filled it (`SplitReplay.FilledTwiceIff`);
- compensation leaves holds confirmed before the first released one committed (`SagaRuns.CompensationAfterPayment`),
  and a failed payment leaves the run's backorders in place (`SagaRuns.PaymentFailureRestores`);
- the rolling on-duty sum counts overlapping intervals twice (`HosRuns.SumMeasuresWorkIff`);
- going from driving straight to the sleeper berth is accepted by the transition table (examples/tms/src/hos.rs:60),
  although examples/tms/src/hos.rs:3-5 calls it illegal (`Breaches.AppendStates`);
- a sale that no tender offered is worth anything is refused as short of the undiscounted subtotal, without discount and
  tax (`RungSales.RungIff`).

## Model

| member | source | states |
|---|---|---|
| Money.Allocate | crates/tpt-erp-primitives/src/money.rs:102-135 | the three loops (round down, rank, hand out) return the specified split, or the error for no ratios or a zero total |
| Money.RoundDown | crates/tpt-erp-primitives/src/money.rs:112-123 | first pass: every part, remainder and the amount handed out so far |
| Money.HandOut | crates/tpt-erp-primitives/src/money.rs:125-132 | second pass: exactly the affordable prefix of the ranking gets one unit each, though the loop only tests `leftover >= unit` |
| Money.SortRanks | crates/tpt-erp-primitives/src/money.rs:126 | the stable sort keeps the elements, is descending, and breaks ties by lower index |
| LargestRemainder.RecipientsSuffice | crates/tpt-erp-primitives/src/money.rs:125-132 | the loop never runs out of recipients: the leftover is worth fewer units than there are non-zero remainders, and only those are served |
| LargestRemainder.ExactSum | crates/tpt-erp-primitives/src/money.rs:96-135 | for every non-negative amount the parts sum to the amount truncated to the minor unit |
| LargestRemainder.Quota | crates/tpt-erp-primitives/src/money.rs:96-135 | each part is the floor or the ceiling of its exact share, never negative, and zero for a zero ratio |
| LargestRemainder.ServedComeFirst | crates/tpt-erp-primitives/src/money.rs:126-132 | whoever gets an extra unit has a larger remainder than whoever does not, or an equal one at a lower index |
| LargestRemainder.LargerRatioNotLess | crates/tpt-erp-primitives/src/money.rs:102-135 | a strictly larger ratio never gets a smaller part |
| LargestRemainder.UnitsAreFair | crates/tpt-erp-primitives/src/money.rs:112-132 | each part is its floor plus one iff fewer indices are ahead of it than units are left over: the split without a sort |
| LargestRemainder.Optimal | crates/tpt-erp-primitives/src/money.rs:102-135 | no integer split with the same sum deviates less in total from the exact proportional shares |
| LargestRemainder.SumsBackIff | crates/tpt-erp-primitives/src/money.rs:102-135 | for any sign, the parts sum back to the amount iff it is a whole, non-negative amount or a negative one with whole shares |
| LargestRemainder.NegativePart | crates/tpt-erp-primitives/src/money.rs:112-132 | each part of a negative amount is its share rounded toward zero, and nothing is handed out |
| LargestRemainder.NegativeAmountLosesACent | crates/tpt-erp-primitives/src/money.rs:125-132 | a concrete negative amount whose parts do not sum back |
| Tenders.SplitSucceedsIff | examples/pos/src/tender.rs:60-84 | a split succeeds iff the tenders cover the total and one of them is worth at least a cent |
| Tenders.SplitWithinTenders | examples/pos/src/tender.rs:60-84 | parts sum exactly to the total, are whole cents, and none exceeds its tender |
| Tenders.SplitAllReproduces | examples/pos/src/tender.rs:60-84 | splitting everything that was tendered gives back each tender |
| Returns.ReturnedMerchandise | examples/pos/src/returns.rs:85-108 | the loop over requested lines computes the value returned, an unknown item counting nothing, or reports that more was claimed than bought |
| Returns.MerchandiseClaimed | examples/pos/src/returns.rs:85-108 | what is claimed is the subtotal for an empty request and otherwise the sum over the requests of quantity times the prices of the item's lines; refused iff more than the subtotal |
| Returns.TwoWaySplit | examples/pos/src/returns.rs:125-132 | the first of two shares is the proportional one rounded half up |
| Returns.RefundComposition | examples/pos/src/returns.rs:118-150 | a refund is total*returned/subtotal rounded half up, at most the total, split exactly over the tenders, none above what it paid |
| Returns.FullReturnIff | examples/pos/src/returns.rs:118-150 | a full return gives back exactly the original tenders iff there was merchandise and something was paid |
| Returns.RefundMonotone | examples/pos/src/returns.rs:118-150 | returning more never refunds less |
| Returns.OvervaluedIffShared | examples/pos/src/returns.rs:93-101 | with positive prices a line is valued above its own price exactly when another line sells the same item |
| Returns.OriginalPriceIff | examples/pos/src/returns.rs:81-101 | every line is valued at its original unit price iff no item is on two lines |
| Returns.AllLinesIsFullReturnIff | examples/pos/src/returns.rs:85-108 | returning a sale line by line is a full return iff no line with units shares its item, and otherwise is refused |
| Returns.AllLinesIsFullReturn | examples/pos/src/returns.rs:85-108 | whatever the prices, returning every line of distinct items is a full return |
| Returns.RepeatedItemDoublesValue | examples/pos/src/returns.rs:93-101 | a concrete item on two lines, valued at both prices |
| Register.PosApp.RingSale | examples/pos/src/lib.rs:226-385 | a sale is recorded exactly as specified, or it is refused and nothing changes (a redemption that fails after the sale was stored is left out, see below) |
| Register.PosApp.ReturnSale | examples/pos/src/lib.rs:392-426 | the refund of the recorded sale is logged; the registry is left as it was, so the sale stays returnable |
| Register.PosApp.Exchange | examples/pos/src/lib.rs:431-485 | the refund of the return is the store credit of the new sale |
| RungSales.RungAmounts | examples/pos/src/lib.rs:236-276 | for every sale: the subtotal is the sum of quantity times price, the tax the sum of the lines' taxes, total = subtotal - discount + tax, and the discounted subtotal is the lower of the subtotal and the plugin's price |
| RungSales.RungTenders | examples/pos/src/lib.rs:291-333 | the credit used pays first and in full; each tender offered, in order and of its kind, pays its fair share, by cents offered, of the rest |
| RungSales.RungIff | examples/pos/src/lib.rs:280-324 | a sale is rung iff the points to redeem are there and the tenders cover what the credit leaves, one of them worth a dollar; which error otherwise and with which amounts |
| RungSales.TaxIsCharged | examples/pos/src/lib.rs:240-276 | a concrete sale of ten dollars with a dollar of tax comes to eleven dollars |
| Register.TendersSumToTotalIff | examples/pos/src/lib.rs:291-333 | the tenders of a successful sale sum to its total iff the credit used is whole cents, not negative, or is negative by less than a cent |
| Register.RungSaleSettledIff | examples/pos/src/lib.rs:226-333 | a rung sale is settled to the cent, which is all a refund relies on, iff the credit it used after the cap is whole cents, not negative, or negative by less than a cent |
| Register.RingThenFullReturnIff | examples/pos/src/lib.rs:392-426 | ring a sale, return all of it: every instrument gets back what it paid iff the credit used is whole cents, not negative, or negative by less than a cent; with a fraction of a cent of credit the return is refused |
| Register.ExchangePaysDifference | examples/pos/src/lib.rs:431-485 | the credit is the refund capped at the new total, and the other tenders pay exactly the difference |
| Register.FractionalCreditLosesMoney | examples/pos/src/lib.rs:291-333 | half a cent of credit goes missing from the recorded tenders |
| Refunds.RefundOfClaim | examples/pos/src/returns.rs:118-150 | any whole-cent claim up to the subtotal is refunded its share rounded half up, and each tender exactly its fair share of that |
| Refunds.ReturnAcceptedIff | examples/pos/src/lib.rs:392-425 | a return succeeds iff it claims at most the subtotal |
| Refunds.ReturnRefusals | examples/pos/src/lib.rs:392-426 | which error a return answers: an unknown sale, one that is not captured, or too much claimed |
| Refunds.RungReturnableIff | examples/pos/src/lib.rs:226-425 | a rung sale can be returned to the cent iff it has merchandise, something was paid and the credit used is whole cents in that sense |
| Refunds.RungReturnSucceedsIff | examples/pos/src/lib.rs:226-425 | a return of any rung sale with something bought and paid succeeds iff it claims at most the subtotal, the recorded tenders cover the rounded refund and one of them is worth a cent |
| Refunds.RingThenReturn | examples/pos/src/lib.rs:226-425 | ring a sale whose used credit is whole cents and return any lines of it: refused if too much is claimed, otherwise refunded exactly, tender by tender |
| Refunds.WithinPaidIff | examples/pos/src/lib.rs:392-425 | over any series of returns of one sale, no tender is refunded more than it paid iff the cents due to it from the claims are at most its cents |
| Refunds.TotalWithinIff | examples/pos/src/lib.rs:392-425 | the refunds together are at most the total iff the cents due are |
| Refunds.FullReturnsIff | examples/pos/src/lib.rs:396-424 | every full return of a sale succeeds, and they stay within what was paid iff there is at most one |
| Refunds.ExactReturnsIff | examples/pos/src/returns.rs:118-150 | returns whose shares come out in whole cents stay within what was paid iff together they claim at most the subtotal |
| Refunds.OverrunBounded | examples/pos/src/returns.rs:118-150 | returns that together claim at most the subtotal refund at most half a cent each more than the total |
| Refunds.DoubleRefund | examples/pos/src/lib.rs:396-424 | a dollar sale returned in full twice refunds two dollars |
| Refunds.PennyReturns | examples/pos/src/returns.rs:134-144 | a rung sale of two units brought down to two cents by the pricing plugin and paid on two tenders: returned one unit at a time, both cents go to the first tender, which paid one |
| Refunds.HalfExchangedIff | examples/pos/src/lib.rs:457-480 | an exchange leaves its return recorded without a sale iff the return is accepted and the tenders do not cover what the credit leaves to pay |
| Outbox.InMemoryOutbox.Stage | crates/tpt-erp-ledger/src/outbox.rs:80-92 | appends one pending row with the body given under the next id, and returns the id |
| Outbox.InMemoryOutbox.FetchPending | crates/tpt-erp-ledger/src/outbox.rs:94-102 | the first pending rows up to the limit |
| Outbox.InMemoryOutbox.MarkDelivered | crates/tpt-erp-ledger/src/outbox.rs:104-110 | marks the first row with the id; an unknown id changes nothing |
| Outbox.RunOnce | crates/tpt-erp-ledger/src/outbox.rs:129-138 | a pass publishes the bodies of a prefix of the pending rows, in order, marks exactly those, and stops at the first failed publish |
| Delivery.RowsAreStaged | crates/tpt-erp-ledger/src/outbox.rs:80-112 | in every run the table holds the bodies staged, in order, under the ids 1, 2, 3, ... |
| Delivery.PublishedAsStaged | crates/tpt-erp-ledger/src/outbox.rs:80-138 | in every run, with any number of relays and whatever fails, what is published is a body as it was staged, under its own id |
| Delivery.BusIsPrefixOfStaged | crates/tpt-erp-ledger/src/outbox.rs:80-138 | with one relay and no failed mark or crash the bus carries the bodies staged, in order and each once, as far as the relay has come |
| Delivery.FetchesEarliest | crates/tpt-erp-ledger/src/outbox.rs:94-102 | a fetch returns as many undelivered rows as there are up to the limit, and a row with fewer undelivered ones before it than the limit is at that place |
| OutboxProtocol.RunKeeps | crates/tpt-erp-ledger/src/outbox.rs:80-138 | the inductive invariant holds after every sequence of stagings, fetches, publishes, failures and crashes of any number of relays |
| OutboxProtocol.DeliveryInOrder | crates/tpt-erp-ledger/src/outbox.rs:80-138 | delivered rows are a prefix, all of them published, at most one more row published, first publications in id order |
| OutboxProtocol.RowsOnlyGrow | crates/tpt-erp-ledger/src/outbox.rs:80-112 | no row is lost, rewritten or becomes pending again |
| OutboxProtocol.DuplicatesBounded | crates/tpt-erp-ledger/src/outbox.rs:129-138 | with one relay, each republication is paid for by a failed mark or a crash |
| OutboxProtocol.ExactlyOnce | crates/tpt-erp-ledger/src/outbox.rs:129-138 | with one relay and no such failure, delivery is exactly once and in order |
| OutboxProtocol.CrashRepublishes | crates/tpt-erp-ledger/src/outbox.rs:129-138 | a crash between publish and mark publishes a row twice |
| Duplicates.OncePlusFailures | crates/tpt-erp-ledger/src/outbox.rs:129-138 | with any number of relays, one relay publishes a row at most once, and once more for each of its own failed marks and crashes |
| Duplicates.CopiesBounded | crates/tpt-erp-ledger/src/outbox.rs:129-138 | so the bus receives a row at most once per relay and once more for each failed mark or crash |
| OutboxProtocol.PassIsRun | crates/tpt-erp-ledger/src/outbox.rs:129-138 | what one pass does to table and bus is what the protocol does when an idle relay fetches, then publishes and marks the completed rows, then fails if it stopped |
| OutboxProtocol.PassAdvances | crates/tpt-erp-ledger/src/outbox.rs:129-138 | a pass that completed n rows advances the delivered prefix by n |
| OutboxProtocol.FullPassDrains | crates/tpt-erp-ledger/src/outbox.rs:129-138 | a pass without failure and with a large enough limit leaves nothing pending |
| EventStore.InMemoryEventStore.AppendVersioned | crates/tpt-erp-ledger/src/store.rs:83-103 | appends at the next sequence or reports the conflict and changes nothing |
| EventStore.InMemoryEventStore.Append | crates/tpt-erp-ledger/src/store.rs:77-81 | an unguarded append always lands at the next sequence |
| EventStore.AppendKeepsContiguous | crates/tpt-erp-ledger/src/store.rs:77-118 | each aggregate's sequences stay 1, 2, 3, ... up to its version |
| EventStore.ConflictIff | crates/tpt-erp-ledger/src/store.rs:83-103 | an append goes through iff it is numbered one past the aggregate's events, and otherwise conflicts with the number asked for and the number there is |
| Journal.JournalEngine.PostTransaction | examples/gl/src/journal.rs:265-350 | the post is refused for too few legs, imbalance, a closed period or a stale version, and otherwise applies its legs in order |
| Journal.JournalEngine.CheckVersions | examples/gl/src/journal.rs:293-307 | finds the first account whose version is not the expected one |
| Journal.JournalEngine.Rebuild | examples/gl/src/journal.rs:378-422 | replays all shard logs, or one period's slice of them |
| Posts.RefusedIff | examples/gl/src/journal.rs:265-306 | each way a post is refused, iff: fewer than two entries, unequal sums of debits and credits, a period closed or locked, a stale account; the stale account reported is the least, with both numbers |
| Posts.GuardedPostIff | examples/gl/src/journal.rs:265-350 | a guarded post of distinct accounts succeeds iff it can be posted and for each account the number of its events in its shard is the version expected, 0 when none is given; otherwise nothing changes, and a conflict names the least stale account with both numbers |
| Posts.UnguardedPostIff | examples/gl/src/journal.rs:265-350 | an unguarded post succeeds iff it can be posted; otherwise nothing changes |
| Posts.PostAppends | examples/gl/src/journal.rs:308-345 | an admitted post appends to each account's events the legs of its own entries with the transaction, period and memo given, or under a guard of those before the first repeated account |
| Posts.RepeatedConflict | examples/gl/src/journal.rs:318-335 | a guarded post that passes every check and names an account again conflicts on the first account so named, one version on |
| Posts.BalanceOfEvents | examples/gl/src/journal.rs:114-120 | in every reachable journal a live balance is what the account's own events debited and credited |
| Posts.RebuiltBalance | examples/gl/src/journal.rs:378-420 | a rebuild gives every account the sums of what the legs, or those of one period, bring to its two sides |
| JournalRuns.LiveEqualsReplay | examples/gl/src/journal.rs:265-402 | after every run of posts, accepted or not, each live balance equals the replay of the shard logs and of the legs in posting order |
| JournalRuns.PeriodEqualsReplay | examples/gl/src/journal.rs:406-422 | the same for the slice of any period |
| JournalRuns.SequencesContiguous | examples/gl/src/journal.rs:99-125 | each account's events live in one shard and are numbered 1..version |
| JournalRuns.PostSucceedsIff | examples/gl/src/journal.rs:265-350 | a post succeeds iff it is not refused and, if guarded, names no account twice |
| JournalRuns.HalfPostedIff | examples/gl/src/journal.rs:293-337 | a failed post changes the journal iff it passes every check, is guarded and names an account twice |
| JournalRuns.WritesKept | examples/gl/src/journal.rs:309-337 | an admitted post writes exactly its entries, or under a guard those before the first repeated account |
| JournalRuns.NetIsTotalImbalance | examples/gl/src/journal.rs:265-422 | debits less credits after any run, overall or in a period, are the imbalances of its posts added up |
| JournalRuns.BooksBalanceIff | examples/gl/src/journal.rs:265-422 | debits equal credits at every point of a run, overall or in a period's slice, iff every admitted guarded post balances up to its first repeated account |
| JournalRuns.BooksBalance | examples/gl/src/journal.rs:265-422 | so in every run whose guarded posts name each account once, debits equal credits overall and in every period's slice |
| JournalRuns.RepeatedAccountUnbalances | examples/gl/src/journal.rs:321-330 | a concrete guarded post that leaves a debit without its credit |
| Reports.BuildTrialBalance | examples/gl/src/reporting.rs:89-116 | rows and totals over the chart |
| Reports.BuildIncomeStatement | examples/gl/src/reporting.rs:120-157 | the temporary accounts that are not zero, total revenue and expense, and their difference |
| Reports.BuildBalanceSheet | examples/gl/src/reporting.rs:161-215 | the permanent accounts by kind, with net income added to equity |
| Reports.TrialBalanceNow | examples/gl/src/reporting.rs:219-245 | the same rows read from the live balances |
| Reports.GenerateClosingEntries | examples/gl/src/journal.rs:426-468 | one entry per temporary account that is not zero, and one to retained earnings |
| Statements.TrialBalanceStates | examples/gl/src/reporting.rs:89-116 | one row per account with its balance on its normal side; the totals are the sums of debits and of credits |
| Statements.IncomeStates | examples/gl/src/reporting.rs:120-158 | revenue is the sum over revenue accounts, expense over expense accounts, and net income their difference |
| Statements.IncomeLine | examples/gl/src/reporting.rs:120-158 | an account has a line iff it is a revenue or expense account with something on it, and what the line says |
| Statements.SheetStates | examples/gl/src/reporting.rs:161-213 | each section totals its own accounts, and net income is added to equity |
| Statements.SheetLine | examples/gl/src/reporting.rs:161-213 | an account is listed in the section of its kind and in no other, with its balance |
| Statements.SheetSections | examples/gl/src/reporting.rs:161-213 | the sections of a chart are those of its parts, in order |
| Statements.ZeroingEntry | examples/gl/src/journal.rs:426-468 | closing debits a revenue account and credits an expense account with all that stands on it, and touches no other |
| Statements.RetainedEntry | examples/gl/src/journal.rs:426-468 | a profit is credited to retained earnings, a loss debited, and without either there is no such entry |
| Closing.StatementIdentity | examples/gl/src/reporting.rs:35-86 | for every chart and books, the balance sheet balances iff the trial balance does |
| Closing.StatementsBalanceIff | examples/gl/src/reporting.rs:89-215 | in every state reached by posting to chart accounts, both statements balance, overall or for a period, iff the imbalances of half-posted transactions cancel out |
| Closing.ReachableStatementsBalance | examples/gl/src/reporting.rs:89-215 | so both balance in every reachable state, and for every period, when guarded posts name each account once |
| Closing.LiveTrialEqualsReplayed | examples/gl/src/reporting.rs:219-245 | the live trial balance is the replayed one |
| Closing.ClosingEntriesBalance | examples/gl/src/journal.rs:426-468 | closing entries are empty or a valid balanced transaction, and move each account by a known amount |
| Closing.ClosingZeroes | examples/gl/src/close.rs:162-176 | posting them moves retained earnings by the net income and nothing else permanent, and zeroes every temporary account iff retained earnings is not one or nothing was earned |
| Closing.ClosingTwiceIsEmpty | examples/gl/src/journal.rs:426-468 | generating again after closing gives no entries |
| Closing.ClosingMovesPeriod | examples/gl/src/close.rs:162-176 | closing moves the closed period's books by the balances of all periods and no other period's |
| Closing.PeriodEmptiedIff | examples/gl/src/close.rs:162-176 | the closed period's own income statement is empty afterwards iff the period held all that closing moves |
| Consolidation.Consolidate | examples/gl/src/consolidation.rs:141-173 | the sorted union of all rows with their totals |
| Consolidation.Eliminate | examples/gl/src/consolidation.rs:230-302 | the pairs are eliminated in order, or the first unknown account is reported |
| Consolidation.DeriveEliminationPairs | examples/gl/src/consolidation.rs:312-355 | tagged Due-From rows matched with the last reciprocal Due-To, sorted |
| GroupBooks.EntriesFollowRows | examples/gl/src/consolidation.rs:230-305 | for any pairs and every account, credits less debits of the entries emitted to it equal what its rows lost in debits less what they lost in credits |
| GroupBooks.OnePair | examples/gl/src/consolidation.rs:240-285 | one pair: the amount is the smaller of the two balances on their normal sides, if positive; it comes off the first row's debits and the second's credits, the first account is credited and the second debited, and no other row changes |
| GroupBooks.UnknownPair | examples/gl/src/consolidation.rs:240-262 | a pair that names a row that is not there fails with it, the first account before the second |
| GroupBooks.PairsInTurn | examples/gl/src/consolidation.rs:240-305 | eliminating some pairs and then others is eliminating all of them in that order: rows, entries, amounts and errors |
| GroupBooks.OneEntity | examples/gl/src/consolidation.rs:141-170 | consolidating one entity keeps its rows under its name, and the totals are the sums of their debits and credits |
| GroupBooks.GroupOfGroups | examples/gl/src/consolidation.rs:141-170 | consolidating two groups together has the rows of both and adds their totals |
| GroupBooks.GroupSorted | examples/gl/src/consolidation.rs:161-166 | the rows are ordered by entity, then account |
| GroupBooks.DerivedIff | examples/gl/src/consolidation.rs:312-345 | a pair is derived iff a tagged asset or expense row and the last tagged liability or equity row of the counterparty that names its entity back make it up |
| GroupBooks.DerivedInOrder | examples/gl/src/consolidation.rs:346-355 | with one row per entity and account the derived pairs are strictly ordered by their first entity and account |
| Elimination.GroupBalances | examples/gl/src/consolidation.rs:141-173 | consolidation loses no row, sorts, and balances if every entity does |
| Elimination.EliminationBalances | examples/gl/src/consolidation.rs:230-370 | for any pairs, total debits and credits fall by exactly the amount eliminated, and the entries emitted debit and credit that amount |
| Elimination.FailsIffUnknown | examples/gl/src/consolidation.rs:230-302 | elimination fails iff some pair names a row that is not there |
| Elimination.DirectedElimination | examples/gl/src/consolidation.rs:230-302 | with debit-normal from and credit-normal to rows, no balance rises or is driven below zero, and a second run eliminates nothing |
| Elimination.SettlesIff | examples/gl/src/consolidation.rs:255-284 | one pair is settled by one elimination iff the smaller balance is on its normal side |
| Elimination.SecondRunEmptyIff | examples/gl/src/consolidation.rs:230-302 | for any pairs, a second run eliminates nothing iff the first left no pair an overlap, and otherwise eliminates more |
| Elimination.UndirectedGrows | examples/gl/src/consolidation.rs:255-284 | against the direction a balance grows and is eliminated again |
| Elimination.DerivedPairsDirected | examples/gl/src/consolidation.rs:312-355 | derived pairs are reciprocal, known and have the right directions |
| Elimination.PairedIff | examples/gl/src/consolidation.rs:320-344 | two rows that name each other are paired iff the Due-To is the last of its entity to that counterparty |
| Elimination.AllPairedIff | examples/gl/src/consolidation.rs:320-344 | all such rows are paired iff no entity has two Due-Tos to a counterparty that claims one |
| Elimination.ClaimPairedIff | examples/gl/src/consolidation.rs:334-344 | a Due-From is paired iff some Due-To names it back |
| Elimination.DerivedElimination | examples/gl/src/consolidation.rs:230-355 | so eliminating with them never fails and is finished after one run |
| Elimination.ConsolidatedKeysUnique | examples/gl/src/consolidation.rs:141-173 | consolidating distinct entities gives one row per entity and account |
| Reservation.ReservationEngine.Receive | examples/oms/src/reservation.rs:177-209 | stock on hand grows and the event is logged |
| Reservation.ReservationEngine.Confirm | examples/oms/src/reservation.rs:493-524 | a hold becomes committed stock, or an unknown hold is reported |
| Reservation.ReservationEngine.ReleaseInternal | examples/oms/src/reservation.rs:586-618 | a hold is dropped if it is there |
| Reservation.ReservationEngine.SweepExpired | examples/oms/src/reservation.rs:622-641 | releases exactly the expired holds that were there, each once, counts them, and leaves every other hold |
| Reservation.ReservationEngine.Reserve | examples/oms/src/reservation.rs:425-489 | all or nothing, after a sweep |
| Reservation.ReservationEngine.ReserveOrBackorder | examples/oms/src/reservation.rs:217-318 | what is available is held and the rest is backordered |
| Reservation.ReservationEngine.FulfillBackordersFor | examples/oms/src/reservation.rs:321-374 | fills until nothing that waits fits; the i-th pair reported is the i-th new id with the quantity of the i-th backorder filled, no backorder is filled twice, and afterwards those backorders are gone, the reported holds are there with their quantities, and nothing else of this or another SKU changed |
| ReservationCalls.StockAdded | examples/oms/src/reservation.rs:177-420 | a receipt or return adds its quantity to its SKU's stock, logs it, and touches no other SKU |
| ReservationCalls.ReservedOrNot | examples/oms/src/reservation.rs:425-490 | a reservation holds all it asks for under a new id iff so much is free, and the free units fall by that; otherwise nothing changes |
| ReservationCalls.OrderSplits | examples/oms/src/reservation.rs:217-316 | an order is given the low 32 bits of the free units, at most what it wants: that much is held under the first new id and the rest backordered under the next, with these events and nothing else |
| ReservationCalls.HoldEnds | examples/oms/src/reservation.rs:493-620 | confirming moves a hold's units to committed and leaves the free ones, releasing frees them; a hold that is not there is left |
| ReservationCalls.FillTurns | examples/oms/src/reservation.rs:345-375 | a fill turns a backorder that fits into a hold of the same quantity under a new id |
| ReservationCalls.FilledAreNew | examples/oms/src/reservation.rs:321-376 | the ids a filling call reports were no SKU's hold or backorder before, and are its SKU's holds of the quantities reported after |
| ReservationCalls.ReplayedEvent | examples/oms/src/reservation.rs:675-706 | what each event does to the read model's state of its SKU |
| ReservationRuns.Rebuild | examples/oms/src/reservation.rs:646-706 | the projection folded over the concatenated shard logs |
| ReservationRuns.RunKeeps | examples/oms/src/reservation.rs:177-641 | the invariant of every SKU holds after every interleaving of whole calls, negative quantities included |
| ReservationRuns.HoldsAccounted | examples/oms/src/reservation.rs:177-641 | after every run: committed is the sum captured, on hand what came in, a hold is there iff placed and not closed, and none is closed twice |
| ReservationRuns.NeverOversoldIff | examples/oms/src/reservation.rs:177-641 | over every run of whole calls a SKU is oversold at no point iff no receipt or return took away more than was available |
| ReservationRuns.NeverOversold | examples/oms/src/reservation.rs:177-641 | so with receipts and returns that are not negative, committed plus held never exceeds what came in |
| ReservationRuns.ReplayEqualsLiveIff | examples/oms/src/reservation.rs:646-706 | after every run a SKU's replayed state is the live one iff none of its backorders was ever filled; each fill leaves one behind |
| ReservationRuns.ReservesRightfulIff | examples/oms/src/reservation.rs:234-238 | for every count and request a call takes what it may iff the 32-bit cast is harmless |
| ReservationRuns.CastErrsOneWay | examples/oms/src/reservation.rs:234-238 | a large count is taken too little from and a negative one too much; just below zero every order is held in full |
| ReservationRuns.InterleavedSectionsOversell | examples/oms/src/reservation.rs:234-257 | two concrete calls that both read before either writes leave available at minus five |
| SplitReservation.UnbrokenOrder | examples/oms/src/reservation.rs:234-275 | the three sections of an order without a break are the whole call |
| SplitReservation.UnbrokenFill | examples/oms/src/reservation.rs:329-360 | the two sections of a fill without a break are one round of the loop |
| SplitReservation.SlackMoves | examples/oms/src/reservation.rs:177-641 | writing moves nothing of what is available and not promised; reading promises what it takes |
| SplitReservation.FinishedAvailable | examples/oms/src/reservation.rs:234-360 | once the calls under way have written, in any order, what is available is what was not promised |
| SplitReservation.OversellsIff | examples/oms/src/reservation.rs:234-360 | the calls under way can oversell a SKU iff more of it is promised than is available |
| SplitReservation.NeverOversellsIff | examples/oms/src/reservation.rs:177-641 | over every interleaving of lock sections, overselling stays impossible iff every read, reservation and receipt was covered when made |
| SplitReservation.AloneIsCovered | examples/oms/src/reservation.rs:234-257 | an order with no other call under way is covered |
| SplitReservation.SimultaneousOrders | examples/oms/src/reservation.rs:234-257 | any number of orders that read before any writes oversell iff what they take from that reading adds up to more than was available |
| SplitReplay.SectionsKeep | examples/oms/src/reservation.rs:177-641 | the invariant of every SKU, and of what calls under way have picked, holds after every interleaving of lock sections |
| SplitReplay.SectionsAccounted | examples/oms/src/reservation.rs:177-641 | however sections interleave, committed is the sum captured, on hand what came in, a hold is there iff placed and not closed, and none is closed twice |
| SplitReplay.SectionsReplayIff | examples/oms/src/reservation.rs:646-706 | however sections interleave, a SKU's replayed state is the live one iff none of its backorders was filled |
| SplitReplay.FilledAgainIff | examples/oms/src/reservation.rs:329-360 | a backorder that is gone is filled again by some course of sections iff a call still has it picked |
| SplitReplay.FilledTwiceIff | examples/oms/src/reservation.rs:329-360 | once a call has filled a backorder, some course of sections fills it again iff another call had picked it too |
| SplitReplay.FillTakes | examples/oms/src/reservation.rs:345-360 | each fill lowers what is available by the picked quantity, also when the backorder is already gone |
| Saga.OrderSaga.Run | examples/oms/src/saga.rs:111-203 | the run ends in exactly the specified ledger, stock and outcome |
| Saga.OrderSaga.ReserveAll | examples/oms/src/saga.rs:118-150 | holds, backorders and the price accumulated line by line |
| SagaOutcomes.LineByLine | examples/oms/src/saga.rs:124-140 | each line is given what is free after its sweep, billed at its price, held under a new id, and backordered for the rest at its price |
| SagaOutcomes.Outcomes | examples/oms/src/saga.rs:111-203 | no lines are refused; payment fails iff something was reserved and the period takes no entries; nothing reserved bills nothing and is backordered; any other success carries the sale's transaction, bill, shortfalls and status |
| SagaOutcomes.BooksWritten | examples/oms/src/saga.rs:275-310 | the events a run adds to each account, with sides, amount, transaction and memo: the sale iff it paid, after it the refund iff fulfilment failed, otherwise none |
| SagaRuns.SagaSucceeds | examples/oms/src/saga.rs:111-203 | if none of its holds expires: reserved plus backordered is ordered per line, committed rises by exactly the reserved, and Shipped iff something is reserved and nothing backordered |
| SagaRuns.SaleIsBooked | examples/oms/src/saga.rs:275-290 | receivables and revenue move by the price of the reserved units and no other account moves |
| SagaRuns.HoldsSurvive | examples/oms/src/saga.rs:111-203 | sweeps of other holds leave the run's own in place |
| SagaRuns.FulfilmentFailsIff | examples/oms/src/saga.rs:173-179 | fulfilment fails iff another caller released one of the run's holds after it was paid |
| SagaRuns.NoneShortIff | examples/oms/src/saga.rs:124-140 | no line of a SKU is short iff the units ordered of it fit in the low 32 bits of its available count |
| SagaRuns.PaymentFailureRestores | examples/oms/src/saga.rs:160-178 | ledger, stock, committed, holds and availability are as before; the whole state iff the units ordered of the SKU were available |
| SagaRuns.RefundReverses | examples/oms/src/saga.rs:294-310 | sale and refund in an open period cancel on every account |
| SagaRuns.CompensationAfterPayment | examples/oms/src/saga.rs:294-345 | the refund reverses the sale, the holds before the first one released meanwhile stay committed, and committed stock is as before iff the run's first hold was released |
| Hos.HosClock.Apply | examples/tms/src/hos.rs:145-170 | the transition is checked first, then the period resets the window or accrues |
| Hos.HosLog.Append | examples/tms/src/hos.rs:268-279 | malformed first, then illegal transitions; an error changes nothing |
| Hos.HosLog.ScanWindow | examples/tms/src/hos.rs:283-308 | the backward scan totals the intervals after the last qualifying rest |
| Hos.HosLog.DrivingSinceBreak | examples/tms/src/hos.rs:322-336 | the driving after the last qualifying break |
| Hos.HosLog.OnDutyInDays | examples/tms/src/hos.rs:344-361 | on-duty time clipped to the rolling window |
| Hos.HosLog.Violations | examples/tms/src/hos.rs:386-402 | every breach, in the source's order |
| Breaches.ReportedIff | examples/tms/src/hos.rs:283-402 | for every log and every violation: it is reported iff it is more than 11 hours driven or 14 worked since the last long rest, at least 8 driven since the last rest of half an hour, or over 60 worked in 7 days, or else over 70 in 8, with the hours as sums over the intervals |
| Breaches.ReportedInOrder | examples/tms/src/hos.rs:386-402 | each rule is reported at most once, in the order driving, duty, break, cycle |
| Breaches.ScansState | examples/tms/src/hos.rs:283-336 | the backward scans are the sums over the intervals after the last rest long enough |
| Breaches.RollingStates | examples/tms/src/hos.rs:344-361 | the rolling sum is that of the working intervals, each clipped to the last days before the log's end |
| Breaches.AppendStates | examples/tms/src/hos.rs:268-279 | which intervals are accepted: not one that ends before it starts, and none of the eight moves that the transition table leaves out |
| Breaches.DrivingFollowsDuty | examples/tms/src/hos.rs:53-62 | in an accepted interval driving follows on-duty, off-duty does not follow driving, and the status changes |
| HosRuns.ClockRefinesLog | examples/tms/src/hos.rs:145-308 | for every sequence of offered intervals, refused ones included, clock and backward scan agree on status, driving and on-duty |
| HosRuns.AcceptTogether | examples/tms/src/hos.rs:145-279 | the log accepts an interval iff it is well formed and the clock accepts its period |
| HosRuns.SameWindowViolations | examples/tms/src/hos.rs:173-402 | the clock's violations are exactly the log's 11-hour and 14-hour ones |
| HosRuns.BreakWithinWindow | examples/tms/src/hos.rs:283-336 | for every log, driving since break is at most driving in the window, at most on-duty in it |
| HosRuns.SumMeasuresWorkIff | examples/tms/src/hos.rs:344-361 | for every log the sum is at least the time covered on duty, and equal iff no two on-duty intervals overlap in the window |
| HosRuns.RollingWindowMeasures | examples/tms/src/hos.rs:344-361 | in order, the sum is the time covered in the last days, so at most that many days |
| HosRuns.RollingMonotone | examples/tms/src/hos.rs:344-361 | more days never count less |
| HosRuns.CycleReportedIff | examples/tms/src/hos.rs:365-383 | in order, a cycle violation is reported iff over 60 hours were worked in 7 days or over 70 in 8 |
| HosRuns.OverlapCountsTwice | examples/tms/src/hos.rs:268-361 | an accepted log whose 7-day sum is 14 days |
| HosRuns.WindowWithinElapsed | examples/tms/src/hos.rs:283-318 | in order, on-duty time in the window is at most the time since it opened |
| Anomaly.AnomalyProjector.Apply | crates/tpt-erp-ledger/src/anomaly.rs:139-166 | unbalanced transactions are flagged and skipped, duplicates flagged, and the value scored |
| Anomaly.AnomalyProjector.DetectAmount | crates/tpt-erp-ledger/src/anomaly.rs:103-127 | scored against the earlier samples, then counted |
| Flags.FlaggedIff | crates/tpt-erp-ledger/src/anomaly.rs:103-166 | a transaction is flagged unbalanced, and for nothing else, iff its debits and credits add up differently; an outlier is flagged iff it is balanced, there are samples and at least the minimum, they vary, and its value is more than the threshold's deviations from their mean, with the value less its fraction |
| Flags.DuplicateIff | crates/tpt-erp-ledger/src/anomaly.rs:148-157 | a transaction is flagged as a duplicate of exactly the earliest balanced one with its entries in any order, if there is one and it has another id |
| Flags.FlagsInOrder | crates/tpt-erp-ledger/src/anomaly.rs:148-165 | a transaction is flagged under its own id, at most once as a duplicate and then once as an outlier |
| Flags.SamplesGrow | crates/tpt-erp-ledger/src/anomaly.rs:139-166 | the samples are debits plus credits, in units of currency, of the balanced transactions in order |
| Flags.MomentsOfSamples | crates/tpt-erp-ledger/src/anomaly.rs:121-126 | one sample has itself as mean and no variance, and what one more sample does to both |
| Anomaly.WelfordStep | crates/tpt-erp-ledger/src/anomaly.rs:121-126 | the update keeps the mean exact and m2 the sum of squared deviations from it, never negative |
| Anomaly.StreamIsBatch | crates/tpt-erp-ledger/src/anomaly.rs:103-166 | after any stream, moments, first ids and every finding are those of a batch computation over all earlier transactions |
| Anomaly.OutlierIffScore | crates/tpt-erp-ledger/src/anomaly.rs:107-119 | the test without a square root is the test of the z score against the threshold |
| Anomaly.ValueIsBothSides | crates/tpt-erp-ledger/src/anomaly.rs:158-163 | the value scored is debits plus credits |
| Anomaly.DoublePostFlagged | crates/tpt-erp-ledger/src/anomaly.rs:148-157 | posting the same entries under another id, in any order, is flagged with the id of the earliest alike transaction, and with no other |
| Mrp.Accumulator.ExplodeNode | examples/mes/src/mrp.rs:95-105 | the walk adds every node's gross to the shared map |
| Mrp.CollectInfo | examples/mes/src/mrp.rs:107-114 | part data of the last node in pre-order |
| Mrp.Explode | examples/mes/src/mrp.rs:61-93 | the plan from gross, part data and critical path |
| MrpPaths.PathsListed | examples/mes/src/mrp.rs:95-105 | the reference list holds every root-to-node path exactly once |
| MrpPaths.ExplosionIsPathSum | examples/mes/src/mrp.rs:95-105 | the gross of a part is demand times the sum over its nodes of the quantities multiplied down the path, for exactly the parts of the tree |
| MrpPaths.OrderIrrelevant | examples/mes/src/mrp.rs:97-105 | any order of the locked updates gives the same map |
| MrpPaths.AdditiveInDemand | examples/mes/src/mrp.rs:61-105 | two demands together need the sum of what they need apart |
| MrpPaths.PlanMeaning | examples/mes/src/mrp.rs:69-86 | a part's net is its gross less its stock, or nothing, and it is short iff gross exceeds its stock |
| MrpPaths.PlanUsesLastNode | examples/mes/src/mrp.rs:67-75 | for every part of the tree, the node on its last path supplies stock and lead time |
| MrpPaths.NoPathLonger | examples/mes/src/mrp.rs:117-126 | no path from the root takes longer than the critical path |
| MrpPaths.CriticalPathAttained | examples/mes/src/mrp.rs:117-126 | some root-to-leaf path takes exactly that long |
| MrpPaths.PlanTakesLongest | examples/mes/src/mrp.rs:88-126 | the plan's critical path is what some path to a leaf takes, and no path takes longer |
| Route.MeasureTour | examples/tms/src/route.rs:32-43 | the closed loop's length |
| Route.TourLegs | examples/tms/src/route.rs:32-43 | no stop is no way, one stop is there and back, and each further stop is visited before the way home |
| Route.NearestNeighborTour | examples/tms/src/route.rs:47-73 | every stop once, and each choice is the nearest still open, ties to the lower index |
| Route.FullTour | examples/tms/src/route.rs:47-73 | distinct stops in range, one fewer than there are, are a permutation of all but the depot |
| Route.FindImprovements | examples/tms/src/route.rs:85-98 | exactly the improving swaps, in order, with their deltas |
| Route.BestSwap | examples/tms/src/route.rs:85-108 | the first swap of least delta, or none when the tour is locally optimal |
| Route.TwoOptImprove | examples/tms/src/route.rs:78-112 | each pass applies the best swap in place, and stopping before the limit means locally optimal |
| RouteSearch.SearchShortens | examples/tms/src/route.rs:78-112 | the stops are kept and every pass shortens the tour by more than the tolerance |
| RouteSearch.RefinedNotLonger | examples/tms/src/route.rs:78-112 | the refined tour visits the same stops and is shorter unless nothing was changed |
| RouteSearch.EnoughPasses | examples/tms/src/route.rs:80-110 | with distances not negative and enough passes the search ends in a local optimum |
| RouteSearch.Optimize | examples/tms/src/route.rs:115-118 | the optimized tour visits every stop once and is never longer than its greedy seed |
| RouteSearch.SearchDeterministic | examples/tms/src/route.rs:100-109 | the outcome of a search is unique, in whatever order the swaps are scored |
| RouteSearch.PassesBounded | examples/tms/src/route.rs:80-110 | with distances not negative the number of passes is bounded by the length to improve |
| RouteSearch.DeltaIsEdgeExchange | examples/tms/src/route.rs:88-92 | with symmetric distances the delta is two edges traded for two others |
| RouteSearch.OptimumHasNoExchange | examples/tms/src/route.rs:78-112 | when the search stops early no exchange of two edges saves more than the tolerance |
| RouteSearch.GreedyIff | examples/tms/src/route.rs:47-73 | a tour is a possible seed iff it visits the stops 1 to n - 1 once each and every stop is nearer to the one before than all visited later, or as near with a lower index |
| RouteSearch.OptimalIff | examples/tms/src/route.rs:85-102 | the search stops early iff no reversal of a stretch of the tour saves more than a billionth |
| RouteSearch.PassIff | examples/tms/src/route.rs:85-110 | a pass makes the reversal that gives the shortest tour, the first of several, if it saves more than a billionth |

## Left out

- Integer widths: u64 ratio, quantity and sequence sums, i64 stock counts and amounts too large for `to_i64` are unbounded here; only the 32-bit cast of the available count is modelled.
- Decimal precision: sums and products of money are exact, without the 28-digit limit.
- Floating point: f64 rounding, NaN and infinities; a variance of zero or no samples flags nothing, as in the source.
- Anomaly.AnomalyProjector.Apply: the signature compares amounts as numbers, while the source compares their decimal text, so 1.0 and 1.00 differ there; the z score is recorded as deviation and variance.
- Register.PosApp.RingSale: the loyalty balance is an input; points earned and redeemed, the pricing plugin's own code, the syncing of the offline log and the cache are not modelled. The source stores the sale (examples/pos/src/lib.rs:341) before it redeems the points (lib.rs:361), and that call can still fail when earning on a negative subtotal lowered them: the sale is then stored although an error is returned, where the model succeeds.
- Register.PosApp.ReturnSale: the return event's own id and time are not modelled; `Refunds.Successes` takes a series of returns of one sale with no sale rung under the same id between them.
- Journal.JournalEngine.PostTransaction: the source takes one mutex guard per account, so two accounts in one shard would block each other; locks, cache writes and bus events are left out, and the period check and the append are one step.
- Reservation.ReservationEngine.ReserveOrBackorder: reading the available count and inserting the hold are one step in this method; the sections are taken apart in `SplitReservation`.
- Reservation.ReservationEngine.SweepExpired: which holds expired is an input; the cache's clock and its index of released jobs are left out, so also that a hold placed by a fill, which neither of them knows (examples/oms/src/reservation.rs:345-360), counts as expired at once.
- Reservation.ReservationEngine.FulfillBackordersFor: picking and filling are one step in this method, taken apart in `SplitReservation`; the fitting backorder picked is arbitrary, as the source's map order is.
- Saga.OrderSaga.Run: other callers act only between payment and fulfilment, through the sweep of holds that lapsed; the later filling and billing of backorders and the published events are left out.
- ReservationRuns.NeverOversold: receipts and returns are assumed not negative, which the source does not check; the exact condition is `ReservationRuns.NeverOversoldIff`.
- Refunds.RingThenReturn: the amounts per tender are stated for sales whose used credit is whole cents; for the others `Refunds.RungReturnSucceedsIff` says when a return succeeds.
- Closing.ReachableStatementsBalance: requires guarded posts to name each account once; the exact condition is `Closing.StatementsBalanceIff`. Both require posts to use chart accounts, since the statements read no others.
- JournalRuns.BooksBalance: requires guarded posts to name each account once; the exact condition is `JournalRuns.BooksBalanceIff`.
- Outbox.InMemoryOutbox.MarkDelivered: cannot fail in memory; failing marks are steps of `OutboxProtocol`.
- OutboxProtocol.DuplicatesBounded: with several relays a row can be republished without a failure, so it is stated for one; for any number see `Duplicates.CopiesBounded`.
- Hos.HosLog.Violations: escalation records and their publication only rename these and are left out.
- Mrp.Accumulator.ExplodeNode: the subtrees are walked in order; that any order gives the same map is `MrpPaths.OrderIrrelevant`.
- Route.TwoOptImprove: swaps are scored one after another; stop indices out of range, which panic, are not modelled.
- Rates, multi-currency, period workflow states and their transition errors, and the cached and per-period report variants.
- Web handlers, user interfaces, the command line, other storage and messaging backends, plugins, authentication, telemetry and serialization.
