# Subscription entitlement core — a Dafny model

This project models how the mobile app decides what a user is entitled to,
and how the backend keeps its subscription ledger in step with the store:

- **Plans** (`plans.dfy`): the three plans (Basic, Pro, VIP), their
  monthly analysis limits (5, 20, 50), the billing period (30 days, or 5
  minutes in development builds), and plan-name validation.
- **Purchases** (`purchases.dfy`): the store's purchase list is normalised
  (transaction date, token). Unrecognised SKUs are dropped, and the
  recognised purchase with the latest transaction date becomes the active
  subscription. Ties go to the earliest listed purchase. The plan priority
  order is also here.
- **Subscription table** (`table.dfy`): the backend's `user_subscriptions`
  rows. Queries are filters over a sequence of rows, `.single()` means
  "exactly one match", and `.update().eq()` is a pointwise update.
- **Quota ledger** (`quota.dfy`): `getUserQuota`, the billing-cycle
  state machine of `checkAndResetQuotaIfNeeded` (no record, uninitialised,
  in cycle, past the cycle end), and `forceResetQuota`.
- **Reconciler** (`reconciler.dfy`): the `useSubscription` hook as a pure
  state machine. It covers the re-entrancy guard, the store-first refresh,
  the best-effort quota check and cache write, the offline fallback to the
  cached entry, the mount sequence and the foreground trigger.
- **Renewal webhook** (`rtdn.dfy`): the Google Play real-time developer
  notification endpoint. It decodes the request and returns 200, 400, 405
  or 500. Eight of the thirteen notification types have a handler that
  writes to the table. SUBSCRIPTION_PURCHASED only logs, and the four
  remaining types fall to the default branch. The model records the table
  writes each handler makes.
- **Display price** (`pricehelper.dfy`): a product's localized price taken
  from its first offer's first pricing phase, the billing-period wording,
  and the plan-to-SKU map.

The model fixes several things that depend on the outside world:

- Timestamps are epoch milliseconds as unbounded integers.
- A nullable column or field is an `Option`.
- JavaScript's `||` (falsy test) and `??` (nullish test) are kept apart
  wherever the source uses them.
- Where the source throws and catches, the caught outcome is modelled
  directly: a `null`, a `0`, a `false`, or a 500.
- Outside effects become parameters:
  - the store's answer;
  - the clock;
  - date parsing;
  - JSON parsing and base64 decoding;
  - whether each backend read or write succeeds;
  - whether the cache read or write succeeds.

The webhook writes its own limits (10, 50 and 999999) on renewal, not the
app's catalog limits (5, 20 and 50). `Rtdn.WebhookLimitsExceedCatalog` and
`Rtdn.BasicRenewalOutranksCatalog` record this. After a Basic renewal,
getUserQuota and the check both report 10, while the catalog says 5.

## Model

| member | source | states |
|---|---|---|
| Plans.GetPlanLimit | src/constants/subscriptionPlans.ts:35-37 | a plan's monthly limit is its PLAN_LIMITS entry and is positive |
| Plans.BillingPeriodMs | src/constants/subscriptionPlans.ts:27-30 | the billing period is 5 minutes in development and 30 days otherwise, never zero |
| Plans.IsValidPlanName | src/constants/subscriptionPlans.ts:42-44 | a string is a valid plan name exactly when it is the name of one of the three plans |
| Plans.LimitByName | src/hooks/useQuota.ts:45-48 | looking a stored plan name up in PLAN_LIMITS gives a limit exactly for valid names, and that plan's catalog limit |
| Plans.ParseText | src/constants/subscriptionPlans.ts:42-44 | every plan's name is valid and reads back as that plan |
| Purchases.SkusDistinct | src/utils/subscriptionHelper.ts:11-15 | the three SKUs are pairwise distinct, so a SKU identifies its plan |
| Purchases.NormalizeDate | src/utils/subscriptionHelper.ts:74-78 | a numeric date is kept, a date string is parsed, and a falsy date (absent, 0 or empty) becomes the current time |
| Purchases.Normalize | src/utils/subscriptionHelper.ts:72-86 | a normalised purchase keeps the product id, has an empty token when none was given, takes the normalised date, and is tagged with the platform |
| Purchases.FetchActiveSubscriptions | src/utils/subscriptionHelper.ts:52-109 | a store error is rethrown; otherwise the result has one normalised entry per store purchase, in order |
| Purchases.ProductIdToPlanName | src/utils/subscriptionHelper.ts:114-125 | a product id maps to a plan exactly when it is that plan's SKU |
| Purchases.Filter | src/utils/subscriptionHelper.ts:143-152 | the kept purchases are exactly the recognised ones |
| Purchases.FoldLatest | src/utils/subscriptionHelper.ts:164-166 | the reduce returns one of its inputs, dated no earlier than its seed |
| Purchases.GetActiveSubscriptionForUser | src/utils/subscriptionHelper.ts:137-194 | null exactly when no purchase has a recognised SKU, which makes the second null check unreachable; otherwise the fields come from a recognised purchase and the plan matches its SKU |
| Purchases.FoldOverFilter | src/utils/subscriptionHelper.ts:164-166 | the strict-`>` reduce over the recognised purchases returns the first one with the greatest date |
| Purchases.LatestIsSelected | src/utils/subscriptionHelper.ts:143-166 | the reduce's winner is a recognised purchase that no recognised purchase postdates and every earlier-listed one strictly predates |
| Purchases.SelectionSpec | src/utils/subscriptionHelper.ts:143-180 | the active subscription is the selected purchase (latest date, first among equals) with its plan, and null exactly when none is recognised |
| Purchases.StoreAnswerDecidesSubscription | src/utils/subscriptionHelper.ts:52-194 | from the store's purchase list: no subscription exactly when no listed purchase has a known SKU; otherwise the selected listed purchase, with its plan, its token defaulted to "" and its date normalised |
| Purchases.SelectedIsLatest | src/utils/subscriptionHelper.ts:164-166 | every recognised purchase is dated no later than the selected one |
| Purchases.TiesGoToTheFirst | src/utils/subscriptionHelper.ts:164-166 | among recognised purchases with the latest date, the first listed one wins |
| Purchases.FilterConcat | src/utils/subscriptionHelper.ts:143-152 | the filter distributes over concatenation |
| Purchases.UnrecognisedIsIgnored | src/utils/subscriptionHelper.ts:143-152 | inserting a purchase with an unknown SKU anywhere never changes the active subscription |
| Purchases.SameFilterSameSelection | src/utils/subscriptionHelper.ts:154-180 | the selection depends only on the recognised purchases |
| Purchases.SingleProPurchase | src/utils/subscriptionHelper.ts:175-180 | a single Pro purchase yields an active Pro subscription carrying its token and date |
| Purchases.PlanOrderIsTotal | src/utils/subscriptionHelper.ts:199-211 | "better or equal" is a total order with VIP above Pro above Basic |
| Quota.ActiveRow | src/hooks/useQuota.ts:28-43 | the read succeeds exactly when the read works and exactly one active row of the user exists; that row is returned |
| Quota.DisplayLimit | src/hooks/useQuota.ts:45-48 | a truthy stored limit is used; otherwise the catalog limit of a valid stored plan name; otherwise 0 |
| Quota.QuotaOf | src/hooks/useQuota.ts:45-54 | remaining is never negative, is `limit - used` or 0, does not exceed the limit for non-negative figures, and needsReset means a stored cycle end lies in the past |
| Quota.GetUserQuota | src/hooks/useQuota.ts:24-75 | a quota exactly when the active-row read succeeds, and then the figures of that row |
| Quota.CheckLimit | src/hooks/useQuota.ts:115 | the check uses the stored limit whenever one is stored (even 0), else the active plan's catalog limit |
| Quota.CheckAndReset | src/hooks/useQuota.ts:91-210 | no table growth; no active row gives 0 and no write; a failed write changes nothing; for a well-formed row the result never exceeds the limit; per branch: a missing cycle gives the user's rows a cycle from now with the limit stored and usage kept, and returns the unclamped `limit - used`; a past cycle end starts the next cycle at the old end with usage zeroed and returns the limit, or the clamped figure if the write fails; within the cycle nothing is written and the clamped figure is returned |
| Quota.CheckFrame | src/hooks/useQuota.ts:136-192 | the check writes only the caller's rows, never their identity, status or lifecycle fields, and every row it changes holds a cycle exactly one period long |
| Quota.UserWriteFrame | src/hooks/useQuota.ts:136-145 | an update scoped by user id with an identity-keeping change touches no other user's row |
| Quota.ActiveRowAfterUserWrite | src/hooks/useQuota.ts:136-145 | after a user-scoped write that keeps user id and status, the active-row read returns the written row |
| Quota.CheckWithoutRecord | src/hooks/useQuota.ts:109-112 | with no readable active row the check returns 0 and writes nothing |
| Quota.CheckInitialisesCycle | src/hooks/useQuota.ts:130-158 | the first check starts a one-period cycle now, stores the limit, keeps usage, and returns the unclamped `limit - used`; a failed write leaves the table as it was |
| Quota.CheckRollsOverFromOldEnd | src/hooks/useQuota.ts:161-192 | past the cycle end the next cycle starts at the old end (not now), usage is zeroed and the full limit returned; a failed write returns the old clamped figure and writes nothing |
| Quota.CheckWithinCycleWritesNothing | src/hooks/useQuota.ts:195-205 | within the cycle the check writes nothing and returns `max(limit - used, 0)` |
| Quota.NeedsResetIsRollover | src/hooks/useQuota.ts:52-54 | getUserQuota's needsReset flag holds exactly when the check would take its rollover branch |
| Quota.ExhaustedRowRollsOver | src/hooks/useQuota.ts:161-192 | a Basic row with 5 of 5 used and a cycle that ended a day ago gets 5 back and zero usage |
| Quota.QuotaAfterCheckAgrees | src/hooks/useQuota.ts:45-205 | when both read the same limit, getUserQuota right after a successful check reports the clamped check's figure, and a reported pending reset means more than a whole period has passed |
| Quota.QuotaAfterCheckWrite | src/hooks/useQuota.ts:130-192 | the agreement above for the two branches that write |
| Quota.QuotaAfterWrite | src/hooks/useQuota.ts:24-75 | getUserQuota after a user-scoped write reports the written row's figures |
| Quota.CheckStepOnGrid | src/hooks/useQuota.ts:161-192 | one check keeps the active row and moves its cycle end by zero or one whole period |
| Quota.ChecksStayOnGrid | src/hooks/useQuota.ts:161-192 | however many checks run, at whatever instants, the cycle end stays a whole number of periods after the first one and never moves back |
| Quota.UninitialisedRecheckDisagrees | src/hooks/useQuota.ts:157 | limit 5, used 7, no cycle: the check as written returns -2, and the same check at the same instant right after returns 0 |
| Quota.CheckAndResetClamped | src/hooks/useQuota.ts:157 | the corrected check performs the same writes, never returns a negative figure, and for a well-formed row never exceeds the limit |
| Quota.ClampedCheckIdempotent | src/hooks/useQuota.ts:130-205 | the corrected check run twice at the same instant returns the same figure, and the second one writes nothing unless the first came more than one period after the cycle end |
| Quota.LateCheckWritesTwice | src/hooks/useQuota.ts:161-192 | a check three periods late moves the cycle end on by one period only; the same check at the same instant writes again, wiping usage recorded in between and handing out the full limit again |
| Quota.RecheckAfterWrite | src/hooks/useQuota.ts:130-205 | a check right after one of the check's own writes sees the written usage and the same limit |
| Quota.ForceResetQuota | src/hooks/useQuota.ts:215-239 | success is the write's outcome, and a failed write leaves the table as it was; only the user's active rows change, only in usage (zeroed) and update time |
| Quota.ForceResetRestoresQuota | src/hooks/useQuota.ts:215-239 | after a force reset getUserQuota shows zero used and the whole limit remaining, and a second reset changes nothing |
| Quota.ForceResetWithoutActiveRow | src/hooks/useQuota.ts:215-239 | with no active row the force reset writes nothing and still reports success |
| Reconciler.StalenessThresholdIsSevenDays | src/hooks/useSubscription.ts:72-73 | the threshold is seven days, and an entry is stale exactly when it is older than that |
| Reconciler.LoadCachedSubscription | src/hooks/useSubscription.ts:78-109 | a readable slot is returned as stored, stale or not; a failed read gives nothing |
| Reconciler.SaveCachedSubscription | src/hooks/useSubscription.ts:114-126 | a successful write replaces the slot, and a failed write leaves it as it was |
| Reconciler.CacheRoundTrip | src/hooks/useSubscription.ts:78-126 | what was saved is loaded back, even once it is stale |
| Reconciler.FromCache | src/hooks/useSubscription.ts:269-279 | adopting a cached entry settles the state and keeps the entry's original check time |
| Reconciler.CacheConversionsInverse | src/hooks/useSubscription.ts:220-279 | caching a settled state and adopting the entry are mutually inverse |
| Reconciler.BeginRefresh | src/hooks/useSubscription.ts:159-167 | a refresh in flight makes a new one a no-op; otherwise the reconciler is marked refreshing and loading |
| Reconciler.FinishRefresh | src/hooks/useSubscription.ts:176-294 | every path ends with the in-flight flag cleared and loading off |
| Reconciler.Refresh | src/hooks/useSubscription.ts:158-295 | a refresh started while one is in flight changes nothing; otherwise it ends settled and not refreshing |
| Reconciler.RefreshInFlightIsNoOp | src/hooks/useSubscription.ts:159-163 | the guard is idempotent, and a refresh during a refresh changes nothing |
| Reconciler.RefreshFoundSubscription | src/hooks/useSubscription.ts:184-229 | the store's active subscription becomes the state and, when the write succeeds, the cache entry, both checked now |
| Reconciler.RefreshFoundNothing | src/hooks/useSubscription.ts:230-259 | with no active subscription the state and the cache say "not subscribed", checked now |
| Reconciler.RefreshStoreFailure | src/hooks/useSubscription.ts:260-291 | on a store failure a cached entry is adopted verbatim, or else the user is treated as not subscribed; the cache is not written |
| Reconciler.BestEffortStepsDoNotAffectState | src/hooks/useSubscription.ts:203-226 | the signed-in user, the quota read and write, and the cache write never change the resulting state |
| Reconciler.OfflineRefreshRestoresLastKnownState | src/hooks/useSubscription.ts:260-279 | after an online refresh that saved its result, an offline refresh reproduces the same state |
| Reconciler.RefreshKeepsConsistency | src/hooks/useSubscription.ts:184-291 | from a consistent cache, a refresh leaves a consistent state and cache (subscribed exactly when a plan is set) |
| Reconciler.OfflineWithCachedVip | src/hooks/useSubscription.ts:269-279 | offline with a cached VIP entry, the app is subscribed to VIP with the entry's original check time |
| Reconciler.ShowCached | src/hooks/useSubscription.ts:376-387 | a readable cached entry is shown at once, still loading; otherwise nothing changes; only the state is touched |
| Reconciler.Mount | src/hooks/useSubscription.ts:373-393 | mounting ends settled and not refreshing; the live refresh overrides the entry shown first, so the mount ends exactly where a refresh without it ends; the entry stays only while another refresh is in flight |
| Reconciler.MountFromInitialState | src/hooks/useSubscription.ts:373-393 | from the hook's initial state, the cached entry (or the initial state) is shown first; the mount then settles on the store's answer when the store answers, and on the cached entry only when it does not |
| Reconciler.HandleAppStateChange | src/hooks/useSubscription.ts:352-366 | the new app state is always recorded, and a refresh runs exactly on a transition from inactive or background to active |
| Reconciler.ForegroundMatchesRegex | src/hooks/useSubscription.ts:355-358 | a refresh is triggered exactly when the previous state's spelling contains `inactive` or `background` (the regular expression test) and the next one is spelled `active`; so leaving `active`, `unknown` or `extension` never triggers one |
| Rtdn.PlanFor | supabase/functions/google-play-rtdn/index.ts:279 | a known product id decides the plan; otherwise the row's stored plan name is kept |
| Rtdn.WebhookLimit | supabase/functions/google-play-rtdn/index.ts:280 | a known plan name gets its webhook limit, anything else gets 10, and the limit is positive |
| Rtdn.FindByToken | supabase/functions/google-play-rtdn/index.ts:268-277 | the lookup succeeds exactly when the read works and exactly one row carries the token, and returns that row |
| Rtdn.Dispatch | supabase/functions/google-play-rtdn/index.ts:197-236 | no rows are added, ids, users, tokens and plan names are never rewritten, a failed write changes nothing, and types other than the eight handled ones are logged only |
| Rtdn.Process | supabase/functions/google-play-rtdn/index.ts:155-256 | a read notification is answered with 200 or 500, and a 500 leaves the table as it was |
| Rtdn.Serve | supabase/functions/google-play-rtdn/index.ts:93-257 | OPTIONS gets 200, other non-POST verbs 405, an unparsable body 400; only a 200 may write |
| Rtdn.ServeRepliesWithoutWriting | supabase/functions/google-play-rtdn/index.ts:113-177 | an unparsable body or undecodable data gets 400, and a test notification or one without a subscription notification, whose event time can be logged, gets 200, all without a write |
| Rtdn.ServeDispatchesOnce | supabase/functions/google-play-rtdn/index.ts:180-242 | a subscription notification with a token, whose event time is absent or renders as a date, gets 200 and the table its type's handler leaves, whatever the handler found or failed to write |
| Rtdn.MissingTokenIsServerError | supabase/functions/google-play-rtdn/index.ts:184-256 | a subscription notification without a purchase token gets 500 with no write, whatever its event time |
| Rtdn.UnrenderableEventTimeIsServerError | supabase/functions/google-play-rtdn/index.ts:155-159 | an event time the log line cannot render as a date throws before anything is read: 500 with no write, even for a test notification |
| Rtdn.MalformedBodyIsRejected | supabase/functions/google-play-rtdn/index.ts:113-125 | a POST whose body is not JSON gets 400 and the table is unchanged |
| Rtdn.ByIdIsByToken | supabase/functions/google-play-rtdn/index.ts:268-298 | with unique ids and one token row, updating the found row by id is updating the token's rows |
| Rtdn.TokenRowIsFound | supabase/functions/google-play-rtdn/index.ts:268-277 | with exactly one row carrying the token, any row carrying it is the found row |
| Rtdn.OnlyTokenRowsChange | supabase/functions/google-play-rtdn/index.ts:197-236 | with unique ids, a notification changes only rows carrying its token |
| Rtdn.FoundRowIsTokenRow | supabase/functions/google-play-rtdn/index.ts:321-438 | a lookup handler's update by id is the update of the token's row |
| Rtdn.RenewedEffect | supabase/functions/google-play-rtdn/index.ts:263-315 | RENEWED makes the token's row active with zero usage, a thirty-day cycle from now and the webhook limit of the notified product's plan (or of the stored plan name) |
| Rtdn.LookupHandlerEffects | supabase/functions/google-play-rtdn/index.ts:321-438 | CANCELED, EXPIRED and RECOVERED apply their own change to the token's row |
| Rtdn.DirectHandlerEffects | supabase/functions/google-play-rtdn/index.ts:444-552 | ON_HOLD, IN_GRACE_PERIOD, PAUSED and REVOKED apply their change to every row carrying the token |
| Rtdn.ExpiredIsRevoked | supabase/functions/google-play-rtdn/index.ts:362-397 | EXPIRED and REVOKED have the same effect whenever at most one row carries the token and EXPIRED's lookup read succeeds |
| Rtdn.FailedReadSplitsExpiredFromRevoked | supabase/functions/google-play-rtdn/index.ts:362-397 | when the lookup read fails, EXPIRED writes nothing, while REVOKED, which never reads, expires every row carrying the token |
| Rtdn.SharedTokenSplitsExpiredFromRevoked | supabase/functions/google-play-rtdn/index.ts:529-552 | with two rows sharing a token, EXPIRED writes nothing while REVOKED expires both |
| Rtdn.UnknownTokenChangesNothing | supabase/functions/google-play-rtdn/index.ts:268-277 | a token no row carries leaves the table unchanged, whatever the type |
| Rtdn.RedeliveryIsIdempotent | supabase/functions/google-play-rtdn/index.ts:197-236 | delivering the same notification again and processing it at the same instant changes nothing further |
| Rtdn.LaterRenewalResetsUsage | supabase/functions/google-play-rtdn/index.ts:263-315 | RENEWED processed again at a later instant starts a new cycle from that instant and zeroes the usage recorded in between |
| Rtdn.LookupTwice | supabase/functions/google-play-rtdn/index.ts:321-438 | a lookup handler with an idempotent, token-keeping change is idempotent |
| Rtdn.RenewedTwice | supabase/functions/google-play-rtdn/index.ts:263-315 | RENEWED applied twice at the same instant equals RENEWED applied once |
| Rtdn.RefoundAfterUpdate | supabase/functions/google-play-rtdn/index.ts:268-298 | after the by-id update the token still finds exactly the updated row |
| Rtdn.CancelKeepsStatus | supabase/functions/google-play-rtdn/index.ts:337-344 | CANCELED turns auto-renewal off and records the time but leaves the row active |
| Rtdn.RenewalRestartsCycle | supabase/functions/google-play-rtdn/index.ts:279-298 | a renewal zeroes usage and starts a thirty-day cycle now, with the webhook limit of the renewed SKU's plan |
| Rtdn.ProductPlansAgree | supabase/functions/google-play-rtdn/index.ts:80-84 | the webhook's product table agrees with the app's SKU-to-plan mapping |
| Rtdn.WebhookLimitsExceedCatalog | supabase/functions/google-play-rtdn/index.ts:87-91 | for every plan the webhook's limit is larger than the app's catalog limit |
| Rtdn.BasicRenewalOutranksCatalog | supabase/functions/google-play-rtdn/index.ts:279-298 | after a Basic renewal both getUserQuota and the check report a limit of 10, while the catalog says 5 |
| PriceHelper.MapBillingPeriodToText | src/utils/subscriptionPriceHelper.ts:22-32 | the five known ISO 8601 periods get their wording, and anything else reads "period" |
| PriceHelper.PeriodTextDeterminesPeriod | src/utils/subscriptionPriceHelper.ts:22-32 | a wording other than "period" identifies the known period it came from |
| PriceHelper.FirstPhase | src/utils/subscriptionPriceHelper.ts:46-67 | a phase is found only when offers, the first offer, its phase list and that list's first entry all exist, and it is that entry; conversely, whenever the offers, the first offer and a non-empty phase list exist, the result is that list's first entry |
| PriceHelper.GetSubscriptionDisplayPrice | src/utils/subscriptionPriceHelper.ts:40-85 | a price exactly when the first phase has a truthy price and period; the price and period are copied, the period is worded "per …", and the currency defaults to USD |
| PriceHelper.OnlyFirstPhaseMatters | src/utils/subscriptionPriceHelper.ts:54-67 | products whose first offer has the same first phase show the same price |
| PriceHelper.NoOffersNoPrice | src/utils/subscriptionPriceHelper.ts:46-60 | no offers, an empty offer list, or a first offer without phases gives no price |
| PriceHelper.MonthlyRupeePrice | src/utils/subscriptionPriceHelper.ts:69-74 | a monthly INR phase shows "₹999.00", "per month", "P1M", "INR" |
| PriceHelper.GetProductIdForPlan | src/utils/subscriptionPriceHelper.ts:90-98 | each plan name maps to its SKU, and any other name to the Basic SKU |
| PriceHelper.ProductIdForPlanRoundTrip | src/utils/subscriptionPriceHelper.ts:90-98 | mapping a plan to its SKU and back gives the plan, and an invalid name comes back as Basic |
| PriceHelper.FindProduct | src/utils/subscriptionPriceHelper.ts:126-129 | the index of the first product with the id, or none exactly when no product has it |
| PriceHelper.GetProductDisplayPrice | src/utils/subscriptionPriceHelper.ts:122-137 | no price when no product has the id; otherwise the display price of the first product with it |
| PriceHelper.GetProductDisplayPriceByPlanName | src/utils/subscriptionPriceHelper.ts:107-113 | the display price of the first product with the plan's SKU (Basic's for unknown names) |

## Left out

- Logging is not modelled: every `console` call, the price log helper `logExtractedPrices`, and `syncSubscriptionToBackend`, which only logs.
- Response bodies, CORS headers and the content type of the webhook's responses are not modelled; only the status and the table writes are.
- JSON parsing, base64 decoding, reading the request body and ISO date parsing are parameters of the model, not definitions in it.
- Reading or writing the device cache is a success flag plus a slot. JSON encoding of the cache entry is not modelled.
- The store SDK connection (`initConnection`, `getAvailablePurchases`) is a given answer, either a purchase list or an error.
- ECMAScript `Date` range limits and Invalid Date are not modelled: timestamps are unbounded integers. This includes the `toISOString` call in the purchase log line, which throws on an unparsable date.
- A handler is given one `now`. The source calls `new Date()` several times within one handler, and those instants are treated as equal.
- Concurrency is not modelled. Each refresh, check, reset and webhook request is one atomic step. The hook's in-flight flag is modelled, but interleavings of two app instances, or of the app and the webhook, are not.
- React rendering, the UI screens and components, and the development debug panel are not part of this model.
- A store product's identifier (`productId`, or `id` when that is missing) is one field.
- A null entry in the offer or phase list reads as an absent entry. A null first offer gives null through the optional chain at line 55 of `subscriptionPriceHelper.ts`. A null first phase throws at line 64, and the catch also gives null.
- A `message.data` value that is not a string is not modelled. The data is either present text or absent.
- Looking up a key that is a JavaScript prototype property (such as `"constructor"`) is not modelled. This applies to the plan and product tables, and to the period table of `mapBillingPeriodToText`. For such a key the source yields an inherited function, while `PriceHelper.MapBillingPeriodToText` yields "period".
- Reconciler.FinishRefresh: the `setState` calls are collapsed into the final state of the refresh. The source's intermediate renders are not modelled.
- Quota.QuotaAfterCheckAgrees: stated only when both functions read the same limit. The two disagree when the stored limit is 0 (`||` against `??`) or the stored plan name differs from the active plan.
- Quota.ChecksStayOnGrid: stated for checks whose reads and writes all succeed.
- Rtdn.RedeliveryIsIdempotent: stated only for a redelivery processed at the same instant as the first delivery. A redelivery processed later gets a new `new Date()`: RENEWED then zeroes the usage recorded in between and restarts the cycle (`Rtdn.LaterRenewalResetsUsage`), and the other handlers re-stamp their time fields.
- Quota.ClampedCheckIdempotent: "at most one write" is promised only when the first check comes at most one period after the cycle end. The rollover moves the end by a single period, as the code and its design both prescribe. A check later than that leaves the end in the past, so a repeat writes again (`Quota.LateCheckWritesTwice`).

## Findings

| source | as written | input that shows it | evidently intended | confidence | as-written member | corrected member |
|---|---|---|---|---|---|---|
| src/hooks/useQuota.ts:157 | the first-time branch returns `limit - used` unclamped, while the other two branches return `Math.max(limit - used, 0)` | stored limit 5, 7 used, no cycle end: the check returns -2, and the same check at the same instant right after returns 0 | the remaining figure clamped at zero, as in the other branches, so that repeating a check does not change its answer | medium, not executed | Quota.UninitialisedRecheckDisagrees | Quota.ClampedCheckIdempotent |

The reconciler uses the corrected `Quota.CheckAndResetClamped`. Its writes
are the same as the check's, and `Quota.CheckAndReset` is kept as the
as-written definition.
