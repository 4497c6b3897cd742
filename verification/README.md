# Verified core of an AI gateway

A Dafny model of the parts of the gateway where state, money and concurrency meet, with proofs
about every interleaving, every history or every input of each part.

| file | models |
|---|---|
| `OrderLock.dfy`, `OrderOutcomes.dfy` | the reference-counted per-order lock and the payment callbacks that use it, one atomic operation at a time; what each callback leaves, in figures |
| `Text.dfy`, `ModelNames.dfy` | comma and newline lists in one column; ordered sets of model names |
| `UpstreamSync.dfy`, `Sweep.dfy` | reconciling a channel's models with its upstream: detection, auto-sync, apply, and the keyset-paged sweep |
| `PricingDiff.dfy`, `PriceSelect.dfy` | the price difference table; choosing a models.dev provider; both conversions to local ratios |
| `MultiKey.dfy`, `KeyColumns.dfy`, `KeyRaces.dfy` | multi-key channels: status, time and reason maps keyed by position, re-indexed by deletions; key columns in every accepted form; overlapping writers of every kind |
| `RateLimit.dfy` | the sliding-window limiter and its background clean-up |
| `BodyStorage.dfy`, `RequestBody.dfy` | the memory and disk request-body storages; fetching, decoding and releasing a request's body |
| `CacheCounters.dfy` | the cache counters under concurrent opens, closes and the background clean-up |
| `OggWalker.dfy` | the Ogg page walker (section 6 of RFC 3533, section 4 of RFC 7845) |
| `VideoBilling.dfy`, `TaskPolling.dfy`, `TaskOutcomes.dfy` | billing of asynchronous tasks: the single poller; concurrent pollers, sweeps, bulk failures and user fetches around the guarded update; what a task costs in the end |
| `StepUp.dfy` | step-up verification in a login session |

`dafny verify dfyconfig.toml` checks everything. Where the Go code updates things in place there is
a class or a loop, proved against a pure step function; the theorems are about that function.
Concurrent code is a transition system whose actions are single atomic operations.

## What the code does not do

Some properties one would expect are false of the code. The model keeps the code as it is, shows
the failing case and states exactly when the property holds:

- A settled order is not always final, nor a credit always backed by a successful order: the request
  that created a Waffo or Pancake order stores it as failed when the provider call fails, without the
  lock and whatever became of the order meanwhile (`CreditedThenFailed`; exactly then:
  `SettledIsFinalIff`, `BackedIff`). No order is credited twice all the same.
- An Epay order is stored as successful before its user is credited; if that last statement fails, no later
  callback and no administrator can credit it (`EpayOutcome`).
- Manual completion credits a Creem order by the quota unit, Creem's own callback the plain amount; and
  it cuts a Stripe order down to whole quota, which Stripe's own callback does not (`StripeByHand`;
  exactly then: `CreditsAsCallbackIff`).
- A polled task can be refunded twice, or be finished and never billed, because a user's fetch rewrites
  its row without billing, finished or not (`RefundedTwice`, `FetchedFailureUnbilled`), and so does a
  bulk failure (`BulkFailureOverwrites`). `BilledAtMostOnceIff`, `AlwaysSettledIff`,
  `BilledExactlyWhenFinishedIff` and `BilledRightIff` say exactly when it is billed right.
- A video task whose upstream takes back a reported failure has been refunded for good (`NetChargeIff`),
  and a settlement whose row is not saved is charged at every poll (`RepeatedSuccessIff`). The poller in
  `controller/task_video.go` has no caller in this version of the repository; tasks are polled by
  `service/task_polling.go`. Both are modelled.
- Deleting the disabled keys of a channel whose keys are all auto-disabled deletes nothing and
  enables them all again: the emptied key column is skipped by the update (`DeleteDisabledCorrectIff`).
- Deletions and appends write key columns back as lines, which some keys do not survive: elements of a
  JSON array with a line break, blank first or last lines, text that only looks like JSON
  (`DeleteKeyIff`, `DeleteDisabledIff`, `AppendKeepsIff`, `AppendDropsUnparsedKeys`).
- A Vertex key that contains line breaks is appended as several keys (`AppendedAsGivenIff`). Replacing the
  keys keeps times and reasons beyond the new ones (`EditWellFormedIff`), and size and key count differ
  for a column that is an empty JSON array (`SizeAgreesIff`).
- Of two overlapping key-management requests the first is lost (`OverlapLosesFirst`,
  `OverlappingDisablesIff`). The row need not stay well formed either: a status update or a key rotation
  stores size and maps from what it read under whatever key column is there by then
  (`ReportAfterDelete`, `CountedBeforeDelete`), and a failing key may hand its mark to another (`ReportAfterReplace`).
  `RacesStayWellFormedIff` and `ReasonsStayIff` say exactly when neither happens, for every interleaving.
- Reconciliation converges except when an offered name contains a comma, or is itself a `regex:`
  entry of the ignore list that hid other names (`ConvergesIff`).
- Of two overlapping checks or applies the first one's settings are lost, pending names and ignore list
  included (`OverlapLosesSettings`).
- The comment above the models.dev conversion promises the cheapest price. A dearer one stays when it is
  first in name order and dearer by less than an epsilon (`DearerStays`, `TwoOffersIff`); the choice is
  the cheapest when prices are an epsilon apart (`SeparatedIsMinimal`) and never off by more.
- An OpenRouter id listed twice can mix ratios of both entries (`OwnLineIff`, `RepeatedIdMixes`).
- A differing price of null or "same" need not be reported (`SurvivesIff`, `NullIsDropped`).
- Limiter clean-up is transparent exactly when there is no cleaner or no window exceeds the expiration by
  more than one second (`ExactIff`). A limit of 0 lets one request through, a negative one panics.
- A memory storage reports the end of the body to a read into an empty buffer and a disk storage
  does not; nothing else tells them apart (`IndistinguishableIff`).
- A body is served again after a clean-up if and only if the request had none (`ServedAgainIff`,
  `BodylessFetchIff`).
- The body that the Kling and Jimeng adapters put in place of the client's is served by the next fetch
  only if no storage is held (`RewrittenServedIff`); both adapters have just made one, so it is not
  (`AdaptersIgnored`).
- Removing a cached file by age makes the counters wrong exactly when a disk storage is open
  (`SweepExactIff`, `SweptThenClosedIff`); over any history they are short by what was swept less what the
  clamp gave back (`Accounts`, `SweptExactIff`) and never too high (`NeverTooMuch`).

## Model

| member | source | states |
|---|---|---|
| OrderLock.MutualExclusion | controller/topup.go:268-308 | in every interleaving of any number of goroutines at most one holds a trade number |
| OrderLock.EntryCountsUsers | controller/topup.go:268-308 | an entry's reference count is the number of registered goroutines; outside the create section an entry exists exactly while that number is positive |
| OrderLock.UnlockFindsOwnMutex | controller/topup.go:294-308 | the load without the create lock always finds the mutex its caller locked, and it is locked: no early return, no fatal unlock |
| OrderLock.NoDeadlock | controller/topup.go:268-308 | while a goroutine is unfinished some goroutine can move |
| OrderLock.LockStepKeeps | controller/topup.go:279-308 | every single operation of LockOrder and UnlockOrder keeps the lock invariant |
| OrderLock.RetiredAlone | controller/topup.go:302-307 | deleting an entry whose count reached 0 takes it from nobody: what every other goroutine relies on in the map still holds |
| OrderLock.NextKeeps | controller/topup.go:268-408 | every step of every callback, of the webhook that takes no lock and of a creating request that gives up keeps the whole invariant |
| OrderLock.CreditedAtMostOnce | controller/topup.go:373-408 | in every run no order of any provider is credited twice, and every credit belongs to a settled order of that user, for a quota it is worth |
| OrderLock.EpayCreditsAfterSuccess | controller/topup.go:373-408 | a step that adds a credit adds exactly one, the quota of the order its callback holds; Epay only after the row is stored as success under the callback's payment method |
| OrderLock.StepCreditsHeldOrder | model/topup.go:109-160 | a callback step credits nothing, or its own order while it holds it, and never one that failed: by the product, unrounded, for Stripe |
| OrderLock.CreditsAsCallbackIff | model/topup.go:320-390 | in every run a credit is what the provider's own callback would give if and only if it is not a manual completion of a Creem order for a non-zero amount, nor of a Stripe order worth a fraction of a unit of quota |
| OrderLock.StripeByHand | model/topup.go:354-356 | a run that completes a Stripe order by hand and credits 166666 where the callback credits 166666.5 |
| OrderLock.StepChangesOwnPending | controller/topup_stripe.go:222-256 | a step changes only a pending order, to a terminal status, of the callback's own provider and trade number, unless it is a creating request that gives up, which stores its own order as failed |
| OrderLock.RunChanges | model/topup.go:82-107 | the same for one callback step, with user, provider, amount and money unchanged |
| OrderLock.SettledIsFinalIff | controller/topup_waffo.go:224-283 | over every run a settled row never changes again if and only if it failed or its creating request does not give up afterwards |
| OrderLock.SettledIsFinal | model/topup.go:320-390 | a settled Epay, Stripe, Creem or balance order never changes again |
| OrderLock.BackedIff | controller/topup_waffo.go:269-283 | in every state of every run a credit's order is stored as successful if and only if its creating request did not give up |
| OrderLock.CreditBacked | model/topup.go:82-107 | credits of Epay, Stripe, Creem and balance orders are always backed by a successful order |
| OrderLock.CreditedThenFailed | controller/topup_waffo_pancake.go:399-418 | a run in which an order is completed by an administrator, credited, and then stored as failed by the request that created it |
| OrderOutcomes.EpayOutcome | controller/topup.go:373-403 | in every interleaving, an Epay callback that finds its order pending leaves it, once its statements have succeeded, successful under the method it was paid with, and its user credited amount times 500000, exactly once and for good; with the outcome of every failing statement and of a negative amount |
| OrderOutcomes.TransactionOutcome | model/topup.go:109-160 | in every interleaving, a callback that finds its order pending and whose transaction succeeds leaves for good: Stripe, success and a credit of money times 500000; Creem, of the amount; Waffo and Pancake, of amount times 500000 if positive; manual completion, the whole part of that if positive; an expired Stripe session, expired and no credit |
| OrderOutcomes.StripeFailedOutcome | controller/topup_stripe.go:222-256 | in every interleaving, a failed Stripe payment leaves its pending order failed, without a credit, for good |
| OrderOutcomes.IgnoredIff | controller/topup.go:376-385 | a callback changes nothing if and only if its first statement fails or it finds no pending order that concerns it |
| OrderOutcomes.ClosedForGood | model/topup.go:82-107 | an order that is not pending, with no callback past reading it, keeps row and credits in every run, but for a creating request that gives up |
| OrderOutcomes.WebhookFails | controller/topup_waffo.go:376-390 | the webhook for a failed Waffo payment fails a pending Waffo order and nothing else |
| OrderOutcomes.InsertStores | controller/topup_waffo.go:208-220 | a new order is stored as it is; an answer from the provider changes no order |
| OrderOutcomes.AnsweredForGood | controller/topup_waffo.go:269-283 | a creating request gives up at most once, and not after it was answered |
| OrderOutcomes.BodyRan | controller/topup.go:279-308 | a goroutine past its body went through its first statement exactly once |
| OrderOutcomes.AtMostFifteenSteps | controller/topup.go:279-308 | a goroutine takes at most fifteen steps of its own |
| OrderOutcomes.BodyNeverWaits | controller/topup.go:279-308 | a goroutine that has its order locked can always take its next step |
| Text.SplitOfJoin | model/channel.go:289-294 | splitting a joined list gives the list back exactly when no entry contains the separator (and the list is not empty) |
| Text.JoinOfSplit | model/channel.go:175-197 | joining undoes splitting |
| Text.ReadOfJoin | model/channel.go:175-197 | reading back a stored list of non-empty separator-free entries gives that list |
| Text.ReadOfJoinIff | model/channel.go:175-197 | a list reads back from its text if and only if its entries are separator-free and the first and the last are not empty |
| Text.TrimIs | model/channel.go:175-197 | trimming takes away what is to be dropped at both ends and nothing else |
| Text.SplitOfJoinIsPieces | model/channel.go:175-197 | splitting a joined list gives the pieces of its entries, in order |
| Text.PiecesIff | model/channel.go:175-197 | a list is its own pieces if and only if no entry contains the separator |
| ModelNames.NormalizeCanonical | controller/channel_upstream_update.go:97-102 | normalised names are trimmed, non-empty and distinct |
| ModelNames.NormalizeMembers | controller/channel_upstream_update.go:97-102 | they are exactly the non-empty trimmed inputs |
| ModelNames.NormalizeFixes | controller/channel_upstream_update.go:97-102 | normalising is idempotent on canonical lists |
| ModelNames.UniqOrder | controller/channel_upstream_update.go:97-102 | names keep the order of their first occurrences |
| ModelNames.MergeModelNames | controller/channel_upstream_update.go:104-118 | the merge loop equals normalising the concatenation |
| ModelNames.MergeIsNormalizedConcat | controller/channel_upstream_update.go:104-118 | old names, then the new ones not among them, is the normalised concatenation |
| ModelNames.SubtractFacts | controller/channel_upstream_update.go:120-129 | exactly the base names not removed, in their order |
| ModelNames.IntersectFacts | controller/channel_upstream_update.go:131-140 | exactly the base names allowed, in their order |
| ModelNames.ApplySelectedFacts | controller/channel_upstream_update.go:142-147 | the added names and the origin names not removed, add winning over remove, in the order of the origin with the added behind |
| ModelNames.FilterFollows | controller/channel_upstream_update.go:119-139 | filtering keeps the order of the names |
| UpstreamSync.PendingAddsFacts | controller/channel_upstream_update.go:176-235 | a name is offered exactly when upstream has it, it is not local, not covered by a redirect and not hidden by the ignore list; in the order of the upstream |
| UpstreamSync.PendingRemovesFacts | controller/channel_upstream_update.go:176-235 | a local name is withdrawn exactly when upstream does not have it and it is no redirect source; in the order of the models column |
| UpstreamSync.OfferedIff | controller/channel_upstream_update.go:176-235 | which names are offered and which are stale, spelled out down to redirects, plain ignore entries and patterns |
| UpstreamSync.AddsAndRemovesDisjoint | controller/channel_upstream_update.go:176-235 | no name is offered and withdrawn at once |
| UpstreamSync.StoredListReadsBack | controller/channel_upstream_update.go:360-407 | a stored canonical comma-free list reads back as itself |
| UpstreamSync.ConvergesIff | controller/channel_upstream_update.go:176-235 | after applying everything detected, a second detection finds nothing if and only if offered names are comma-free and taking them off the ignore list unhides nothing |
| UpstreamSync.ConvergesForPlainUpstream | controller/channel_upstream_update.go:780-828 | it always converges for comma-free upstream names that are no ignore patterns, redirects included |
| UpstreamSync.CommaDiverges | controller/channel_upstream_update.go:780-828 | a concrete name with a comma is never reconciled |
| UpstreamSync.PatternNameDiverges | controller/channel_upstream_update.go:780-828 | applying a name that is also an ignore pattern offers what the pattern hid |
| UpstreamSync.AutoSyncCounts | controller/channel_upstream_update.go:360-407 | auto-sync adds exactly the pending names behind the local ones, reports their number and leaves none pending |
| UpstreamSync.CheckIs | controller/channel_upstream_update.go:360-407 | everything a check leaves and reports: nothing unless it is forced, the first, or the interval has passed; the time after a failing fetch; otherwise what was found, pending or added |
| UpstreamSync.UnforcedIsForced | controller/channel_upstream_update.go:366-374 | an unforced check does what a forced one does if the interval has passed since the last, and otherwise nothing |
| UpstreamSync.StepTimes | controller/channel_upstream_update.go:376-384 | every check that runs and is saved, a failing fetch included, and every saved apply leaves its time; anything else leaves the row |
| UpstreamSync.UnforcedApart | controller/channel_upstream_update.go:366-374 | over every run an unforced check that runs comes at least the interval after every saved check and apply before it |
| UpstreamSync.AutoSyncConverges | controller/channel_upstream_update.go:360-407 | after auto-sync of comma-free names nothing is offered and the withdrawals are the same |
| UpstreamSync.AutoSyncConvergesIff | controller/channel_upstream_update.go:384-396 | auto-sync leaves nothing to offer if and only if the names it adds are comma-free |
| UpstreamSync.ApplySplitsPending | controller/channel_upstream_update.go:780-828 | old pending adds are split into added, ignored and remaining, add winning over ignore; an added name leaves the ignore list |
| UpstreamSync.ApplySplitsRemovals | controller/channel_upstream_update.go:780-828 | the selected pending removals that are not added are removed, the rest stay pending |
| UpstreamSync.ApplyIs | controller/channel_upstream_update.go:780-828 | the models column is rewritten exactly when a name was added or removed, in order; the time is that of the apply |
| UpstreamSync.RunsStayConsistent | controller/channel_upstream_update.go:360-407 | over every run of checks, auto-syncs and applies the pending adds share no name with the pending removes or the exact-name ignore list |
| UpstreamSync.RacesStayConsistent | controller/channel_upstream_update.go:349-358 | the same in every interleaving of checks and applies that read, work and write with no lock between them |
| UpstreamSync.StoredAlone | controller/channel_upstream_update.go:349-358 | a check or apply that nobody got between does exactly its step |
| UpstreamSync.StoredIs | controller/channel_upstream_update.go:349-358 | over a row replaced meanwhile: all settings as worked out from what was read, the models column only if there are models to add or remove, and nothing if nothing is stored |
| UpstreamSync.AloneIsStep | controller/channel_upstream_update.go:360-407 | after any interleaving, one that reads and writes with nobody in between does its step |
| UpstreamSync.OverlapLosesSettings | controller/channel_upstream_update.go:349-358 | of two that both read before either writes, the second one's settings are all that is left, and of the first at most its models |
| UpstreamSync.Channel.CheckAndPersist | controller/channel_upstream_update.go:360-407 | the in-place check does what the specification says, on failure of the fetch or of the save too |
| UpstreamSync.Channel.FileAdditions | controller/channel_upstream_update.go:384-396 | the auto-apply branch files additions as synced or as pending |
| UpstreamSync.Channel.Decide | controller/channel_upstream_update.go:780-812 | what an apply works out before it stores anything |
| UpstreamSync.Channel.ApplyUpdates | controller/channel_upstream_update.go:780-828 | the in-place apply does what the specification says, and nothing when the save fails |
| Sweep.Run | controller/channel_upstream_update.go:540-608 | without query errors the sweep visits every enabled channel exactly once in id order, checks exactly those whose settings ask for it, and ends after the first short page, for any table size; a failing query leaves a whole number of full pages |
| Sweep.NextPage | controller/channel_upstream_update.go:834-845 | a page is what follows the last visited id, and a short page completes the list |
| Sweep.BehindIsSuffix | controller/channel_upstream_update.go:834-845 | restricting to greater ids leaves exactly the channels after it |
| Sweep.EnabledExact | controller/channel_upstream_update.go:834-845 | the list visited is exactly the enabled channels, in id order |
| Sweep.CheckedExact | controller/channel_upstream_update.go:562-572 | the channels checked are exactly those visited whose settings ask for it, once each and in order |
| PricingDiff.BuildDifferences | controller/ratio_sync.go:536-696 | the five passes produce the exact difference table, for every map iteration order |
| PricingDiff.ExactMeans | controller/ratio_sync.go:536-696 | a cell survives if and only if its field is one of the ten compared and some upstream has a different value there; its columns are exactly the upstreams that differ somewhere, each with what it shows and whether it is a placeholder |
| PricingDiff.InPlainFigures | controller/ratio_sync.go:48-95 | values differ unless equal or numbers less than a billionth apart; an upstream is distrusted exactly when it shows ratio 37.5 with completion ratio 1 |
| PricingDiff.ShownFigures | controller/ratio_sync.go:606-640 | what a column shows, whatever the upstream sends: its value, the word "same", or nothing |
| PricingDiff.SurvivesExactly | controller/ratio_sync.go:593-693 | the survival condition, in both directions |
| PricingDiff.SurvivesIff | controller/ratio_sync.go:593-693 | for whatever values the upstreams send, a cell survives if and only if some upstream brings it into the table and one that reports anything stands out there |
| PricingDiff.DeviatesExactly | controller/ratio_sync.go:656-674 | a column stays if and only if its upstream differs from the local table somewhere |
| PricingDiff.DeviatesIff | controller/ratio_sync.go:656-674 | for whatever values, a column stays if and only if its upstream reports a differing value that is neither null nor "same" |
| PricingDiff.OrderIrrelevant | controller/ratio_sync.go:536-696 | two results for the same upstreams in any order are equal |
| PricingDiff.NullIsDropped | controller/ratio_sync.go:605-665 | a null upstream value that differs is not reported |
| PricingDiff.CollectModels | controller/ratio_sync.go:541-556 | the first pass collects every model any table mentions |
| PricingDiff.Rate | controller/ratio_sync.go:558-591 | the confidence of every upstream for every model |
| PricingDiff.CompareCell | controller/ratio_sync.go:595-652 | what every upstream shows in one cell, and whether the cell belongs in the table |
| PricingDiff.Gather | controller/ratio_sync.go:605-629 | the confidence values collected beside a cell |
| PricingDiff.FindDeviating | controller/ratio_sync.go:656-665 | the upstreams that show something other than "same" anywhere |
| PricingDiff.Prune | controller/ratio_sync.go:667-693 | other columns are dropped, and cells and models left empty |
| PriceSelect.ConvertModelsDev | controller/ratio_sync.go:906-985 | fails exactly when no provider has prices that can be expressed; otherwise lists exactly the models with such prices, each with the ratios made of the prices of one provider that no priced one undercuts by a billionth of a dollar |
| PriceSelect.Select | controller/ratio_sync.go:915-944 | every listed model gets a priced offer if there is one, cheaper than every priced offer plus one epsilon |
| PriceSelect.CandidateIff | controller/ratio_sync.go:843-879 | a candidate is made if and only if the input price is usable, the output price absent or usable, and zero when the input is free; it carries provider, input, output and a usable cache price over |
| PriceSelect.BestIsCheap | controller/ratio_sync.go:881-893 | a selected offer is priced if any is, and no priced one is cheaper by a billionth of a dollar |
| PriceSelect.ChoosesCheapest | controller/ratio_sync.go:881-893 | the fold under the non-transitive comparison loses at most one epsilon in name order, for any number of providers |
| PriceSelect.TwoOffersIff | controller/ratio_sync.go:881-893 | of two offers the cheapest priced one is chosen if and only if it is not the later one, cheaper by less than an epsilon |
| PriceSelect.DearerStays | controller/ratio_sync.go:917-944 | two providers in name order whose dearer offer is kept |
| PriceSelect.SeparatedIsMinimal | controller/ratio_sync.go:881-893 | with different prices an epsilon or more apart the choice is the cheapest priced offer, for any number of them |
| PriceSelect.BestIsCheapest | controller/ratio_sync.go:917-944 | so a selected offer is no dearer than any priced offer at least an epsilon away from it |
| PriceSelect.FreeKeepsFirst | controller/ratio_sync.go:881-893 | with only free offers the first provider stays |
| PriceSelect.SortedKeys | controller/ratio_sync.go:915-935 | collecting and sorting map keys: strictly ascending, exactly the keys |
| PriceSelect.UnorderedDrifts | controller/ratio_sync.go:915-919 | why the providers are sorted: out of name order three of them lose more than one epsilon |
| PriceSelect.FillTables | controller/ratio_sync.go:950-972 | every selected model gets exactly its line in the three tables |
| PriceSelect.RoundClose | controller/ratio_sync.go:698-700 | rounding is off by at most half a millionth and keeps the sign |
| PriceSelect.RoundIs | controller/ratio_sync.go:698-700 | a rounded ratio is the nearest whole number of millionths, halves away from zero |
| PriceSelect.ProductClose | controller/ratio_sync.go:698-700 | the product of two rounded ratios is off by at most what the two roundings allow |
| PriceSelect.DevRatiosStandFor | controller/ratio_sync.go:954-972 | the line of a published price is half the input price and the others as parts of it, rounded, and recovers input, output and cache prices up to the roundings; a free model has no other ratio |
| PriceSelect.RouterRatiosStandFor | controller/ratio_sync.go:744-793 | the same for OpenRouter's prices per token |
| PriceSelect.EntryLineIs | controller/ratio_sync.go:744-793 | which OpenRouter entries get a line and what it is, from their prices per token |
| PriceSelect.RouterIsDev | controller/ratio_sync.go:744-793 | both conversions give the same line for the same prices |
| PriceSelect.ConvertOpenRouter | controller/ratio_sync.go:724-807 | the loop leaves in each table the last value written for each id |
| PriceSelect.LastWriteWins | controller/ratio_sync.go:744-793 | an id is present exactly when some entry wrote it, with the last value |
| PriceSelect.RatiosHaveAModel | controller/ratio_sync.go:744-793 | cache keys are among completion keys, and those among model keys |
| PriceSelect.OwnLineIff | controller/ratio_sync.go:744-793 | an id's line is that of its last usable entry if and only if no earlier entry left a ratio behind |
| PriceSelect.RepeatedIdMixes | controller/ratio_sync.go:744-793 | a priced entry followed by a free one of the same id leaves a zero ratio beside the old completion ratio |
| MultiKey.ReindexView | controller/channel.go:1581-1628 | keeping some positions keeps exactly what those keys showed, in order |
| MultiKey.DeleteKeyView | controller/channel.go:1563-1641 | on a column of plain lines delete_key removes that key and nothing else that an administrator sees |
| MultiKey.DeleteDisabledView | controller/channel.go:1643-1710 | on a column of plain lines delete_disabled_keys keeps exactly the keys not auto-disabled, as they were, or else all of them enabled |
| MultiKey.DeleteDisabledCorrectIff | controller/channel.go:1643-1710 | it leaves the surviving keys if and only if some key is not auto-disabled |
| MultiKey.EnableKeyView | controller/channel.go:1450-1490 | the key is enabled, the others unchanged |
| MultiKey.DisableKeyView | controller/channel.go:1407-1448 | the key is manually disabled, with the time and reason recorded for it before; the others unchanged |
| MultiKey.EnableAllView | controller/channel.go:1492-1514 | every key is enabled with no time or reason |
| MultiKey.DisableAllView | controller/channel.go:1516-1561 | enabled keys become manually disabled, with what was recorded for them; disabled ones stay as they are |
| MultiKey.ReportedView | model/channel.go:641-691 | a status update enables a key reported as working, or shows its status with time and reason; every other key shows what it showed, and an unknown key changes nothing |
| MultiKey.InfoAfter | controller/channel.go:1407-1561 | enabling forgets times and reasons, of one key or all; disabling, appending and editing keep them |
| MultiKey.DeleteKeyInfo | controller/channel.go:1581-1628 | delete_key moves times and reasons of all other keys with them, of enabled ones too |
| MultiKey.DeleteDisabledInfo | controller/channel.go:1648-1681 | delete_disabled_keys keeps those of disabled keys only |
| MultiKey.NewKeysFacts | controller/channel.go:920-968 | an append adds exactly the trimmed non-blank keys not there yet, distinct, from lines, a Vertex array or one Vertex key; they have no line break if none was given |
| MultiKey.AppendView | controller/channel.go:898-971 | on a column of plain lines existing keys stay in place with what they showed; the lines of the new ones follow, enabled |
| MultiKey.AppendedAsGivenIff | controller/channel.go:918-940 | the new keys are there as they were given if and only if none contains a line break, which holds for all but Vertex channels |
| MultiKey.PartsAre | controller/channel.go:920-943 | what an appended text stands for: lines, a Vertex array, or one Vertex key |
| MultiKey.AppendWellFormedIff | controller/channel.go:898-971 | an append keeps a well-formed row so if and only if every line of every key is non-blank and does not begin with "[" |
| MultiKey.EditWellFormedIff | controller/channel.go:972-977 | an edit that replaces the keys, or gives none, keeps the row well formed if and only if the new column is one of plain lines and long enough for every time and reason recorded |
| MultiKey.EditView | controller/channel.go:972-977 | each new key shows what the one in its place showed; those behind are enabled |
| MultiKey.EditIs | controller/channel.go:972-977 | what an edit stores for every row, and that an append to an empty column is one |
| MultiKey.AppendDropsUnparsedKeys | controller/channel.go:898-971 | text that only looks like JSON is replaced by the new keys |
| KeyColumns.AppendKeepsIff | controller/channel.go:898-971 | an append to any non-empty column keeps its keys in front if and only if nothing is written, or a JSON array has no line break in its elements, or lines are not all blank, or what is written or added happens to repeat them |
| KeyColumns.ReindexIff | controller/channel.go:1581-1628 | writing back some keys of any column shows exactly what they showed if and only if they read back as lines |
| KeyColumns.DeleteKeyIff | controller/channel.go:1563-1641 | delete_key on any column, JSON arrays included, removes that key and nothing else if and only if the others read back |
| KeyColumns.DeleteDisabledIff | controller/channel.go:1643-1710 | delete_disabled_keys on any column leaves exactly the keys not auto-disabled if and only if there are none to delete, or some to leave and those read back |
| KeyColumns.SimpleActions | controller/channel.go:1407-1514 | enable_key, disable_key and enable_all_keys on any column, JSON arrays included |
| KeyColumns.DisableAllShown | controller/channel.go:1516-1561 | disable_all_keys on any column |
| KeyColumns.ReadsBackIff | model/channel.go:175-197 | when keys written as lines are read as the same keys |
| MultiKey.KeysAre | model/channel.go:175-197 | how a key column is read, by GetKeys and by the append path |
| KeyRaces.RacesStayWellFormed | model/channel.go:706-780 | in every interleaving of key management, edits, status updates, rotations and repairs in which every write fits what it lands on, the stored row and every row being worked on stay well formed |
| KeyRaces.RacesStayWellFormedIff | model/channel.go:706-780 | a run keeps the row well formed throughout if and only if every write fits: status updates and rotations a column of as many keys as they read, updates without keys one of as many as they counted |
| KeyRaces.UnderColumnIff | model/channel.go:285-287 | everything but the key column, stored under another one, is well formed if and only if both have as many keys |
| KeyRaces.WriteFitsIff | model/channel.go:526-573 | the same for channel.Update, which reads the key column once more when it is given none |
| KeyRaces.ReasonsStayIff | model/channel.go:641-691 | throughout a run every reason stands beside the key it was reported for, and every auto-disabled key has one, if and only if every write also finds, wherever a reason is recorded, the key that was read |
| KeyRaces.StepRightful | controller/channel.go:1407-1710 | key management moves every reason with its key |
| KeyRaces.ShownAsReadIff | model/channel.go:349-354 | after a status update or rotation every key shows what was worked out for it if and only if the column is the one that was read |
| KeyRaces.ReportAfterDelete | model/channel.go:742-772 | a status update that read before a deletion leaves a size too large and may mark a position that is gone |
| KeyRaces.ReportAfterReplace | model/channel.go:742-772 | one that read before the keys were replaced by as many marks another key |
| KeyRaces.CountedBeforeDelete | model/channel.go:531-553 | an edit without keys that counted them before a deletion leaves a size too large |
| KeyRaces.SerialWhenCurrent | controller/channel.go:1271-1290 | requests of every kind that each write over what they read act as one after the other |
| KeyRaces.OverlapLosesFirst | controller/channel.go:1271-1290 | of two requests that both read before either writes, the first is as if it had never been |
| KeyRaces.OverlappingDisablesIff | controller/channel.go:1407-1448 | two overlapping disable_key requests leave what they would one after the other if and only if they name one key or the first one's was disabled before |
| MultiKey.RunsStayWellFormed | controller/channel.go:1407-1710 | over every sequence of actions that fit, on a column of plain lines, the size is the key count and all positions are in range |
| MultiKey.RunsStayWellFormedIff | controller/channel.go:1407-1710 | a sequence keeps the row well formed throughout if and only if every append and edit in it fits the row it finds; plain lines are non-blank and do not begin with "[" |
| MultiKey.SizeAgreesIff | model/channel.go:526-553 | over every sequence on every column of whatever form the size is the number of keys if and only if the column is not an empty JSON array |
| MultiKey.Channel.Save | model/channel.go:526-573 | recounts the keys, drops statuses beyond them, and skips an empty key column |
| MultiKey.PersistIs | model/channel.go:526-573 | what channel.Update stores for every row: column, count, statuses below it, times and reasons |
| MultiKey.Channel.DropBeyond | model/channel.go:555-563 | the loop removes exactly the statuses at or beyond the count |
| MultiKey.Channel.RemoveKey | controller/channel.go:1563-1641 | the in-place delete_key, refused when no key would remain |
| MultiKey.Channel.KeepOthers | controller/channel.go:1582-1613 | its loop re-indexes keys, statuses, times and reasons together |
| MultiKey.Channel.RemoveDisabledKeys | controller/channel.go:1643-1710 | the in-place delete_disabled_keys and the number it reports |
| MultiKey.Channel.KeepLive | controller/channel.go:1648-1681 | its loop keeps exactly the keys not auto-disabled, re-indexed |
| MultiKey.Channel.DisableAllKeys | controller/channel.go:1516-1561 | the in-place disable_all_keys and the number it reports |
| MultiKey.Channel.UpdateKeyStatus | model/channel.go:641-691 | the in-place status update of one key |
| MultiKey.Channel.FindKey | model/channel.go:646-652 | its loop finds the first position of the key, or none |
| MultiKey.Channel.AppendKeys | controller/channel.go:898-971 | the in-place append, refused for a Vertex array that cannot be read |
| MultiKey.Channel.CollectNewKeys | controller/channel.go:940-968 | its de-duplication loop collects exactly the new keys |
| RateLimit.InMemoryRateLimiter.Request | common/rate-limit.go:45-70 | the decision, the panic of a negative limit and the new queue are those of the specification |
| RateLimit.InMemoryRateLimiter.ClearExpiredItems | common/rate-limit.go:28-42 | a clean-up pass, where there is a cleaner, removes exactly the idle queues, whatever the map order |
| RateLimit.DecisionFromQueue | common/rate-limit.go:45-70 | the bounded queue decides as the full admission log would |
| RateLimit.AdmitsExactly | common/rate-limit.go:45-70 | in every run a request is admitted if and only if fewer than N admissions are less than D seconds old |
| RateLimit.NeverOverruns | common/rate-limit.go:45-70 | no run admits more than N requests in any window of D seconds |
| RateLimit.CleanupTransparent | common/rate-limit.go:28-42 | taking all clean-up passes out of a run changes no admission |
| RateLimit.CleanupForgets | common/rate-limit.go:14-42 | with a cleaner and a longer window a clean-up pass makes the limiter overrun |
| RateLimit.ExactIff | common/rate-limit.go:14-42 | the limiter is exact in every possible run if and only if there is no cleaner, or every window is at most the expiration plus one second, but for keys whose requests panic |
| BodyStorage.IndistinguishableIff | common/body_storage.go:47-89 | over every sequence of operations both storages answer alike if and only if no empty buffer is read at or past the end |
| BodyStorage.StepIs | common/body_storage.go:47-85 | what every operation of both storages answers and where it leaves the cursor, seeks from all three origins and closed storages included |
| BodyStorage.SameState | common/body_storage.go:169-238 | and they are always in the same state |
| BodyStorage.ContentIsFixed | common/body_storage.go:47-89 | no operation changes the content and only Close closes |
| BodyStorage.ReadsReplay | common/body_storage.go:47-54 | reads of any sizes yield the bytes from the cursor on, in order, none twice, none skipped |
| BodyStorage.ReadsMove | common/body_storage.go:47-54 | and leave the cursor behind them |
| BodyStorage.RewindReplaysAll | common/body_storage.go:56-63 | after rewinding, large enough reads yield the whole body |
| BodyStorage.MemoryStorage.Read | common/body_storage.go:47-54 | fills the caller's buffer and moves the cursor as specified, errors included |
| BodyStorage.MemoryStorage.Seek | common/body_storage.go:56-63 | moves the cursor or refuses |
| BodyStorage.MemoryStorage.Bytes | common/body_storage.go:74-81 | the content, with nothing changed |
| BodyStorage.DiskStorage.Read | common/body_storage.go:169-176 | fills the caller's buffer and moves the cursor as specified, errors included |
| BodyStorage.DiskStorage.Seek | common/body_storage.go:178-185 | moves the cursor or refuses |
| BodyStorage.DiskStorage.Bytes | common/body_storage.go:198-230 | the content, with the cursor back where it was; if a file operation fails, the error and where the cursor is left |
| BodyStorage.DiskStorage.ReadFull | common/body_storage.go:217-222 | the loop fills the buffer exactly when enough bytes are left |
| RequestBody.AlwaysHolds | common/gin.go:36-106 | over every sequence of fetches, decodes, uses, rewrites and clean-ups the context holds the body that counts and nothing else: the client's, or a rewritten one once no storage is held |
| RequestBody.SuccessServesBody | common/gin.go:108-155 | every successful fetch or decode leaves that whole body at offset 0, the client's if nothing rewrote it |
| RequestBody.RewrittenServedIff | middleware/kling_adapter.go:41-50 | at any point of any run a rewritten body is served by the next successful fetch or decode if and only if no storage is held, or one of the same bytes |
| RequestBody.AdaptersIgnored | middleware/jimeng_adapter.go:25-46 | once the client's body has been fetched, every fetch until its release serves it, whatever is put in its place |
| RequestBody.ServedBodyReadsBack | common/gin.go:108-155 | and whoever reads next reads that body, in whatever pieces |
| RequestBody.FirstFetchIff | common/body_storage.go:262-303 | the first fetch succeeds exactly when nothing it needs fails and the body is within the limit, 128 MB unless set, reports which of them failed, and holds the body on disk exactly when it fits there |
| RequestBody.StoredAgain | common/gin.go:47-58 | a rewritten or empty body is stored without a limit, on disk exactly when it fits there |
| RequestBody.HeldFetch | common/gin.go:37-45 | a fetch while a storage is held rewinds it and nothing else, or fails if it was closed |
| RequestBody.UnmarshalIs | common/gin.go:108-155 | what a decode leaves on every path: where the fetch failed, where the decoder failed, on disk and in memory, and on success |
| RequestBody.OtherActions | common/gin.go:99-106 | uses, rewrites and clean-ups, each touching nothing else |
| RequestBody.ExhaustedStays | common/gin.go:36-106 | once spent, a body is never served again, in part or empty, unless another is put in its place |
| RequestBody.ExhaustedFetchIff | common/gin.go:36-106 | from then on, at any point of any run, a fetch succeeds if and only if the body was rewritten and no closed storage is in the way |
| RequestBody.FailureExhausts | common/gin.go:36-106 | a failed first fetch or a clean-up spends a body that came over the connection |
| RequestBody.ServedAgainIff | common/gin.go:68-84 | a fetch after a fetch and a clean-up succeeds if and only if the request has no body |
| RequestBody.BodylessFetchIff | common/gin.go:36-155 | for a request without a body, at any point of any run, a fetch succeeds exactly when the storage held is open, or none is and the body was rewritten or never decoded |
| RequestBody.NothingLeaks | common/gin.go:99-106 | over every run every storage made is the current one or was closed; after a clean-up all are closed |
| RequestBody.Request.GetRequestBody | common/gin.go:36-84 | the in-place fetch does what the specification says |
| RequestBody.Request.UnmarshalBodyReusable | common/gin.go:108-155 | the in-place decode does what the specification says |
| RequestBody.Request.CleanupBodyStorage | common/gin.go:99-106 | the storage is closed and forgotten |
| RequestBody.Request.Rewrite | middleware/kling_adapter.go:41-49 | the in-place rewrite |
| CacheCounters.QuiescentExact | common/disk_cache_config.go:108-134 | in every interleaving, whenever nothing is under way, counts and bytes are those of the open storages; those of the disk as long as nothing was swept |
| CacheCounters.NextKeeps | common/body_storage.go:37-72 | every atomic step but a sweep keeps the balance between counters and storages |
| CacheCounters.NeverClamped | common/disk_cache_config.go:115-122 | without sweeps no counter is ever negative, so the clamp never acts |
| CacheCounters.Accounts | common/disk_cache_config.go:108-134 | at every point of every run with sweeps, the disk counters are what the storages account for, less what sweeps subtracted, plus what the clamp gave back; the memory counters are exact |
| CacheCounters.SweptExactIff | common/disk_cache.go:109-138 | at rest the disk counters are exact if and only if the clamp gave back every file and byte swept |
| CacheCounters.NeverTooMuch | common/disk_cache_config.go:115-122 | in every run with sweeps the disk counters never exceed the files and bytes that are there |
| CacheCounters.SweptFullyIs | common/disk_cache.go:109-138 | a sweep with nothing else happening subtracts the file once, clamping at zero |
| CacheCounters.CloseOnce | common/body_storage.go:187-196 | closing again changes nothing |
| CacheCounters.CreatedFullyIs | common/disk_cache_config.go:108-128 | a whole creation leaves one more open storage and adds it to the counters of its kind once |
| CacheCounters.OpenUntilClosed | common/body_storage.go:65-72 | over every run an open storage stays open until it is closed |
| CacheCounters.SweepExactIff | common/disk_cache.go:109-138 | removing a file by age keeps the counters exact if and only if no disk storage is open |
| CacheCounters.SweptThenClosedIff | common/disk_cache.go:109-138 | sweeping and then closing a storage ends exact if and only if it was the only open one |
| CacheCounters.ClosedFullyIs | common/disk_cache_config.go:115-122 | a whole close subtracts the storage once, clamping at zero |
| OggWalker.TotalGranules | common/audio.go:196-249 | the loop terminates on any bytes and reports the greatest granule position of the pages it recognises |
| OggWalker.VisitsAreThePages | common/audio.go:207-249 | for any sequence of well-formed pages, with stray bytes around them that contain no magic number, the pages visited are exactly the pages there |
| OggWalker.VisitsBehind | common/audio.go:207-249 | whatever is behind the pages, they are visited and the walk goes on right there |
| OggWalker.CutFile | common/audio.go:215-240 | in a file cut off inside a page, that page counts exactly if its first 27 bytes are there |
| OggWalker.FileLength | common/audio.go:207-253 | so the total is the maximum of 0 and all signed granule positions |
| OggWalker.JunkSkipped | common/audio.go:219-226 | resynchronisation skips stray bytes and never misses the next page |
| OggWalker.PageVisited | common/audio.go:228-248 | a page is recognised with its granule position and the walk resumes right behind it |
| OggWalker.RoundTripLE | common/audio.go:229 | little-endian decoding inverts encoding |
| OggWalker.LongestIsMax | common/audio.go:230-232 | the running maximum is 0 or a granule position, and none is greater |
| OggWalker.PageSize | common/audio.go:241-245 | the sum of the segment table |
| OggWalker.SumAdds | common/audio.go:241-245 | every segment counts once |
| OggWalker.OpusDuration | common/audio.go:196-254 | the total at 48000 per second |
| VideoBilling.NetChargeIff | controller/task_video.go:127-276 | when updates succeed, the net charge is the row's quota until failure and 0 afterwards if and only if the upstream never takes back a failure of a task that costs something |
| VideoBilling.Conservation | controller/task_video.go:127-276 | net charge plus what was lost to taken-back failures equals what the row says is owed |
| VideoBilling.RowAndCharge | controller/task_video.go:127-276 | over every run, whatever is not saved or not funded: the status is that of the last saved known report, the quota what the tokens came to at the last saved and funded success, and the user has paid what each poll cost |
| VideoBilling.SettledSuccess | controller/task_video.go:182-236 | a saved and funded success billed by tokens leaves exactly that quota and moves the charge by the difference to the old one |
| VideoBilling.RefundIff | controller/task_video.go:241-273 | a failure is refunded if and only if it is saved, the task costs something and had not failed |
| VideoBilling.RefundsBounded | controller/task_video.go:241-273 | whatever fails, at most one refund, plus one per failure taken back |
| VideoBilling.TakenBackRefundsTwice | controller/task_video.go:241-273 | failure, progress, failure refunds twice |
| VideoBilling.SuccessIdempotent | controller/task_video.go:143-240 | polling a success again any number of times changes nothing once its row is saved |
| VideoBilling.RepeatedSuccessIff | controller/task_video.go:143-267 | polling a success again charges nothing more if and only if the row was saved or there was nothing to charge |
| VideoBilling.UnsavedSettlementRepeats | controller/task_video.go:182-267 | a settlement whose row is not saved is charged once per poll |
| VideoBilling.Billing.UpdateVideoSingleTask | controller/task_video.go:121-279 | the in-place poll does what the specification says, on every failure path |
| VideoBilling.Billing.Settle | controller/task_video.go:182-236 | charges or returns the difference and notes the new quota, unless the account update fails |
| TaskPolling.NextKeeps | model/task.go:404-417 | every database step keeps every win billed or owed and the charge equal to what was billed |
| TaskPolling.ChargeIsBilled | service/task_billing.go:152-246 | in every interleaving the charge is the pre-consumed quota adjusted by the billings; at rest the billings are the guarded updates won |
| TaskPolling.StepMoves | service/task_polling.go:422-502 | a win closes an open row, with a settlement for a success and for a failure a refund, nothing if the task cost nothing, or none for a legacy task; without a win only a fetch or a bulk failure changes whether or how a row is finished |
| TaskPolling.BilledAtMostOnceIff | relay/relay_task.go:421-478 | in every interleaving a task is won at most once if and only if no fetch takes a won row out of its terminal status before it is won again |
| TaskPolling.OnlyFetchReopens | relay/relay_task.go:452-478 | only a user's fetch reopens a won row |
| TaskPolling.AlwaysSettledIff | service/task_polling.go:473-499 | throughout a run a row is terminal exactly when it was won once, for what its status calls for, if and only if no fetch or bulk failure changes whether or how it is finished |
| TaskPolling.BilledExactlyWhenFinishedIff | service/task_polling.go:300-324 | without fetches, at rest, a task is billed exactly when finished, as its status calls for, if and only if no bulk failure hit a row that had not failed already |
| TaskPolling.BilledRightIff | relay/relay_task.go:421-478 | with fetches too: if and only if it was not won again and what fetches and bulk failures did since the last win has come to nothing |
| TaskPolling.RefundedTwice | relay/relay_task.go:452-478 | swept, refunded, reopened by a fetch, swept and refunded again |
| TaskPolling.FetchedFailureUnbilled | relay/relay_task.go:452-478 | a failure that a fetch reports is never refunded |
| TaskPolling.BulkFailureOverwrites | service/task_polling.go:108-130 | the unguarded bulk failure can overwrite a settled success |
| TaskOutcomes.WinIff | service/task_polling.go:422-499 | a task is won if and only if a poller is answered a success or a failure, or a sweep times it out, and the row is as they loaded it; a success settles the reported amount, a failure refunds unless the task cost nothing, a legacy time-out does not |
| TaskOutcomes.BillIff | service/task_billing.go:152-246 | only a winner bills, once; a funded refund returns the quota, a funded settlement charges or returns the difference |
| TaskOutcomes.RowAfter | service/task_polling.go:422-486 | the status and progress every action leaves, and none if the guard fails |
| TaskOutcomes.WorkerAfter | service/task_polling.go:473-499 | a worker that has written, lost or billed has nothing left to do, unless it won; nobody else is touched |
| TaskOutcomes.LoadsIff | model/task.go:306-315 | pollers load exactly open rows that are not complete |
| TaskOutcomes.PaidIs | service/task_billing.go:152-246 | in every run, whatever spoils it, the user has paid the pre-consumed quota changed by each funded billing |
| TaskOutcomes.FinishedCosts | service/task_polling.go:422-502 | at rest, without fetches, bulk failures and failing funding, a task finished by an action has that outcome and has cost: what its tokens came to, the pre-consumed quota for another success or a legacy time-out, nothing for another failure |
| TaskOutcomes.OpenCosts | service/task_polling.go:422-502 | and a task nobody finished is open and has cost the pre-consumed quota |
| StepUp.PasskeyCheckBacked | controller/passkey.go:564-581 | in every session history a passkey check passes only with a passkey verification less than 300 seconds old that consumed a marker less than 60 seconds old |
| StepUp.MarkersDiffer | controller/secure_verification.go:157-179 | no marker backs two verifications: a new assertion lies between any two |
| StepUp.MarkerHasSource | controller/passkey.go:490-498 | a marker present was left by an assertion and untouched since |
| StepUp.CodeCheckBacked | controller/passkey.go:564-581 | a code check passes only with a right code less than 300 seconds old |
| StepUp.FlowPassesIff | controller/secure_verification.go:98-155 | after assertion and verification, whatever came before, the check passes exactly within both limits |
| StepUp.AllowsIff | controller/passkey.go:564-581 | over every session history a check passes if and only if a verification by that method was recorded less than 300 seconds before and no assertion, verification, logout or expired check has ended it since |
| StepUp.RecordsIff | controller/secure_verification.go:98-128 | a passkey verification is recorded if and only if both saves succeed and its marker was left by an assertion less than 60 seconds before |
| StepUp.CodePassesIff | controller/secure_verification.go:86-96 | after a right code, whatever came before, a code check passes exactly within 300 seconds and a passkey check does not |
| StepUp.ConsumedForGood | controller/secure_verification.go:157-179 | a marker consumed by an attempt is gone, even if the attempt fails |
| StepUp.CheckLeaves | controller/passkey.go:564-581 | a check clears an expired verification and touches nothing else |
| StepUp.Session.PasskeyVerifyFinish | controller/passkey.go:490-498 | sets the marker and withdraws any verification |
| StepUp.Session.ConsumePasskeyReady | controller/secure_verification.go:157-179 | the marker goes before its age is looked at |
| StepUp.Session.SetSecureVerification | controller/secure_verification.go:145-155 | records time and method and drops the marker |
| StepUp.Session.VerifyByPasskey | controller/secure_verification.go:98-128 | succeeds exactly with a good marker and both saves |
| StepUp.Session.VerifyByCode | controller/secure_verification.go:86-96 | succeeds exactly with a right code and the save |
| StepUp.Session.RequireSecureVerificationMethod | controller/passkey.go:564-581 | passes exactly with an unexpired verification by that method, and clears an expired one |

## Left out

- Payment SDK calls and webhook signatures; a callback here starts after its signature was accepted.
- Subscription orders, which have a table of their own and also write a row of the top-up table when they complete; their trade numbers are taken to be others than those of the orders here.
- Quota arithmetic in fixed-width integers and binary fractions: quotas and money are real, and the quota unit is its default of 500000. What a database makes of adding a fraction to an integer column is not modelled.
- Regular-expression matching and JSON decoding, which are parameters; normalising a model mapping whose raw keys trim to the same name depends on map order and is taken as given.
- The `ignored_models` list in the apply response, which may also name an added model.
- Failures after a row is saved, such as rebuilding abilities, and all notifications.
- Non-positive channel ids in the sweep, and tables that change while it is under way.
- NaN and infinities in OpenRouter prices, and binary floating-point rounding other than the six-decimal one.
- Pricing values that Go cannot compare, such as nested objects.
- How a Vertex JSON array is decoded, key-status paging, which key a rotation chooses, and the memory cache's copy of a channel.
- The channel's own status, which can make a status update return before it stores anything; key columns that credential refreshes overwrite; saves of rows that were read without their key.
- Seek origins beyond start, current and end; 64-bit overflow of offsets and counters; sharing of the byte slice a memory storage returns.
- Failures of file operations other than those of reading a whole disk storage.
- Form and multipart decoding; whether a decode succeeds is a parameter, so the trailing data that only the streaming decoder accepts is not seen.
- Reading the request body behind the context's back before it is first fetched.
- Cache hit counters, the file-data cache and the resynchronisation of counters from the disk.
- Ogg checksums, continued packets and multiplexed streams: the walker ignores them too.
- Token quotas, usage statistics and billing logs beside the user's charge; the quota a token count comes to is a parameter.
- Suno tasks and the settlement rules of particular adaptors; the amount a success comes to is a parameter.
- Session stores that let a client present an older cookie again, and two requests of one session in flight at once.
- Relay, retry and channel selection, Midjourney polling, other audio formats, URL filtering, CRUD handlers and the user interface.
