/** The subscription reconciler (src/hooks/useSubscription.ts): the
    in-memory subscription state, the refresh transition that merges the
    store's answer, the local cache and the quota ledger, and the
    foreground trigger. The React state, the AsyncStorage slot and the
    backend table are fields of one `Reconciler` record; every effect the
    hook performs is a pure transition over it. */
module Reconciler {
  import opened Wrappers
  import opened Plans
  import opened Purchases
  import opened SubscriptionTable
  import Quota

  datatype SubscriptionState = SubscriptionState(
    loading: bool,
    isSubscribed: bool,
    activePlan: Option<PlanName>,
    productId: Option<string>,
    purchaseToken: Option<string>,
    lastCheckedAt: Option<nat>)

  /** The last known state as stored under the cache key. */
  datatype CachedSubscription = CachedSubscription(
    isSubscribed: bool,
    activePlan: Option<PlanName>,
    productId: Option<string>,
    purchaseToken: Option<string>,
    lastCheckedAt: nat)

  /** React Native's AppStateStatus. */
  datatype AppStatus = AppActive | Background | Inactive | UnknownStatus | Extension

  /** The hook's state, its in-flight flag, the cache slot, the backend table
      and the last seen app state. */
  datatype Reconciler = Reconciler(
    state: SubscriptionState,
    refreshing: bool,
    cache: Option<CachedSubscription>,
    table: Table,
    appState: AppStatus)

  /** Everything a refresh consults besides the reconciler itself: the store's
      answer, the clock, the platform, the date parser, the signed-in user, the
      build mode, and whether each backend and cache access succeeds. */
  datatype RefreshEnv = RefreshEnv(
    store: StoreResponse,
    now: nat,
    platform: Platform,
    parseDate: string -> int,
    user: Option<string>,
    dev: bool,
    quotaReadOk: bool,
    quotaWriteOk: bool,
    cacheReadOk: bool,
    cacheWriteOk: bool)

  const InitialState: SubscriptionState := SubscriptionState(true, false, None, None, None, None)

  /** STALENESS_THRESHOLD: seven days. */
  const StalenessThresholdMs: nat := 7 * 24 * 60 * 60 * 1000

  /** A cached entry is stale when it is more than seven days old. */
  predicate IsStale(c: CachedSubscription, now: nat) {
    now - c.lastCheckedAt > StalenessThresholdMs
  }

  lemma StalenessThresholdIsSevenDays()
    ensures StalenessThresholdMs == 604_800_000
    ensures forall c: CachedSubscription, now: nat :: IsStale(c, now) <==> now > c.lastCheckedAt + 604_800_000
  {
  }

  /** loadCachedSubscription: the stored entry, stale or not; nothing when the
      slot is empty or reading or parsing it fails (`readOk == false`). */
  function LoadCachedSubscription(slot: Option<CachedSubscription>, readOk: bool): (r: Option<CachedSubscription>)
    ensures r.Some? ==> r == slot
    ensures readOk ==> r == slot
    ensures !readOk ==> r.None?
  {
    if readOk then slot else None
  }

  /** saveCachedSubscription: overwrites the slot; a failed write is
      swallowed and leaves the slot as it was. */
  function SaveCachedSubscription(slot: Option<CachedSubscription>, c: CachedSubscription, writeOk: bool)
    : (r: Option<CachedSubscription>)
    ensures writeOk ==> r == Some(c)
    ensures !writeOk ==> r == slot
  {
    if writeOk then Some(c) else slot
  }

  /** What was saved is what is loaded, whatever its age. */
  lemma CacheRoundTrip(slot: Option<CachedSubscription>, c: CachedSubscription, now: nat)
    ensures LoadCachedSubscription(SaveCachedSubscription(slot, c, true), true) == Some(c)
    ensures IsStale(c, now) ==> LoadCachedSubscription(Some(c), true) == Some(c)
  {
  }

  /** The settled state that adopts a cached entry verbatim. */
  function FromCache(c: CachedSubscription): (s: SubscriptionState)
    ensures !s.loading && s.lastCheckedAt == Some(c.lastCheckedAt)
  {
    SubscriptionState(false, c.isSubscribed, c.activePlan, c.productId, c.purchaseToken, Some(c.lastCheckedAt))
  }

  /** The cache entry recording a settled state. */
  function ToCache(s: SubscriptionState): CachedSubscription
    requires s.lastCheckedAt.Some?
  {
    CachedSubscription(s.isSubscribed, s.activePlan, s.productId, s.purchaseToken, s.lastCheckedAt.value)
  }

  /** Caching and adopting are inverse: nothing of a settled state is lost in
      the cache, and nothing of a cache entry is lost when it is adopted. */
  lemma CacheConversionsInverse(s: SubscriptionState, c: CachedSubscription)
    ensures ToCache(FromCache(c)) == c
    ensures !s.loading && s.lastCheckedAt.Some? ==> FromCache(ToCache(s)) == s
  {
  }

  /** The state for a confirmed subscription, checked at `now`. */
  function SubscribedState(a: ActiveSubscription, now: nat): SubscriptionState {
    SubscriptionState(false, true, Some(a.planName), Some(a.productId), Some(a.purchaseToken), Some(now))
  }

  /** The "not subscribed" state, checked at `now`. */
  function UnsubscribedState(now: nat): SubscriptionState {
    SubscriptionState(false, false, None, None, None, Some(now))
  }

  /** A settled state that is internally consistent: subscribed exactly when a
      plan is set, and then with that plan's SKU and a token; otherwise with
      every field null. */
  predicate Consistent(s: SubscriptionState) {
    && !s.loading
    && s.lastCheckedAt.Some?
    && (s.isSubscribed <==> s.activePlan.Some?)
    && (s.isSubscribed ==> s.productId.Some? && s.purchaseToken.Some?
                           && ProductIdToPlanName(s.productId.value) == s.activePlan)
    && (!s.isSubscribed ==> s.productId.None? && s.purchaseToken.None?)
  }

  predicate ConsistentSlot(slot: Option<CachedSubscription>) {
    slot.Some? ==> Consistent(FromCache(slot.value))
  }

  /** The start of refreshSubscription: the re-entrancy guard, then the flag
      raised and `loading` set. */
  function BeginRefresh(r: Reconciler): (r': Reconciler)
    ensures r.refreshing ==> r' == r
    ensures !r.refreshing ==> r'.refreshing && r'.state.loading
    ensures r'.cache == r.cache && r'.table == r.table && r'.appState == r.appState
  {
    if r.refreshing then r
    else r.(refreshing := true, state := r.state.(loading := true))
  }

  /** The quota check of a refresh that found a subscription: best effort,
      and only for a signed-in user; its returned figure is only logged. */
  function RefreshQuota(t: Table, a: ActiveSubscription, env: RefreshEnv): Table {
    match env.user
    case None => t
    case Some(uid) => Quota.CheckAndResetClamped(t, uid, a.planName, env.now, env.dev, env.quotaReadOk, env.quotaWriteOk).table
  }

  /** The body of refreshSubscription after the guard, including the `finally`
      that clears the flag. */
  function FinishRefresh(r: Reconciler, env: RefreshEnv): (r': Reconciler)
    ensures !r'.refreshing && !r'.state.loading
    ensures r'.appState == r.appState
  {
    match FetchActiveSubscriptions(env.store, env.now, env.platform, env.parseDate)
    case Success(subs) =>
      (match GetActiveSubscriptionForUser(subs)
       case Some(a) =>
         var s := SubscribedState(a, env.now);
         Reconciler(s, false, SaveCachedSubscription(r.cache, ToCache(s), env.cacheWriteOk),
                    RefreshQuota(r.table, a, env), r.appState)
       case None =>
         var s := UnsubscribedState(env.now);
         Reconciler(s, false, SaveCachedSubscription(r.cache, ToCache(s), env.cacheWriteOk), r.table, r.appState))
    case Failure(_) =>
      match LoadCachedSubscription(r.cache, env.cacheReadOk)
      case Some(c) => r.(state := FromCache(c), refreshing := false)
      case None => r.(state := UnsubscribedState(env.now), refreshing := false)
  }

  /** refreshSubscription as one atomic step. */
  function Refresh(r: Reconciler, env: RefreshEnv): (r': Reconciler)
    ensures r.refreshing ==> r' == r
    ensures !r.refreshing ==> !r'.refreshing && !r'.state.loading
  {
    if r.refreshing then r else FinishRefresh(BeginRefresh(r), env)
  }

  /** The guard: a refresh started while another is in flight changes
      nothing, neither the state nor the cache nor the table. */
  lemma RefreshInFlightIsNoOp(r: Reconciler, env: RefreshEnv)
    ensures BeginRefresh(BeginRefresh(r)) == BeginRefresh(r)
    ensures Refresh(BeginRefresh(r), env) == BeginRefresh(r)
  {
  }

  /** Store success with a subscription: the state and the cache entry carry
      the selected plan, product and token, stamped `now`; the quota check
      runs for a signed-in user. */
  lemma RefreshFoundSubscription(r: Reconciler, env: RefreshEnv, items: seq<RawPurchase>)
    requires !r.refreshing && env.store == StorePurchases(items)
    ensures var found := GetActiveSubscriptionForUser(FetchActiveSubscriptions(env.store, env.now, env.platform, env.parseDate).value);
            found.Some? ==>
            var a := found.value;
            var r' := Refresh(r, env);
            && r'.state == SubscriptionState(false, true, Some(a.planName), Some(a.productId), Some(a.purchaseToken), Some(env.now))
            && r'.cache == (if env.cacheWriteOk then Some(CachedSubscription(true, Some(a.planName), Some(a.productId), Some(a.purchaseToken), env.now)) else r.cache)
            && r'.table == (if env.user.Some?
                            then Quota.CheckAndReset(r.table, env.user.value, a.planName, env.now, env.dev, env.quotaReadOk, env.quotaWriteOk).table
                            else r.table)
  {
  }

  /** Store success without a subscription: not subscribed, all fields null,
      stamped `now`, cached alike; the table is not touched. */
  lemma RefreshFoundNothing(r: Reconciler, env: RefreshEnv, items: seq<RawPurchase>)
    requires !r.refreshing && env.store == StorePurchases(items)
    requires GetActiveSubscriptionForUser(FetchActiveSubscriptions(env.store, env.now, env.platform, env.parseDate).value).None?
    ensures var r' := Refresh(r, env);
            && r'.state == SubscriptionState(false, false, None, None, None, Some(env.now))
            && r'.cache == (if env.cacheWriteOk then Some(CachedSubscription(false, None, None, None, env.now)) else r.cache)
            && r'.table == r.table
  {
  }

  /** Store failure: a cached entry is adopted verbatim, its original check
      time included; without one the state falls back to not subscribed at
      `now`. Neither the cache nor the table changes. */
  lemma RefreshStoreFailure(r: Reconciler, env: RefreshEnv)
    requires !r.refreshing && env.store == StoreError
    ensures var r' := Refresh(r, env);
            && (env.cacheReadOk && r.cache.Some? ==> r'.state == FromCache(r.cache.value))
            && (!env.cacheReadOk || r.cache.None? ==> r'.state == UnsubscribedState(env.now))
            && r'.cache == r.cache && r'.table == r.table
  {
  }

  /** Failures of the best-effort steps (no signed-in user, a failing quota
      read or write, a failing cache write) never change the state a
      refresh settles on. */
  lemma BestEffortStepsDoNotAffectState(r: Reconciler, env1: RefreshEnv, env2: RefreshEnv)
    requires env1.store == env2.store && env1.now == env2.now && env1.platform == env2.platform
    requires env1.parseDate == env2.parseDate && env1.cacheReadOk == env2.cacheReadOk
    ensures Refresh(r, env1).state == Refresh(r, env2).state
  {
  }

  /** Offline operation keeps the last known truth: after a refresh that
      reached the store and cached its result, a refresh that cannot reach
      the store settles on exactly the same state. */
  lemma OfflineRefreshRestoresLastKnownState(r: Reconciler, online: RefreshEnv, offline: RefreshEnv)
    requires !r.refreshing && online.store.StorePurchases? && online.cacheWriteOk
    requires offline.store == StoreError && offline.cacheReadOk
    ensures Refresh(Refresh(r, online), offline).state == Refresh(r, online).state
  {
    var r1 := Refresh(r, online);
    assert r1.cache == Some(ToCache(r1.state));
    CacheConversionsInverse(r1.state, ToCache(r1.state));
  }

  /** A refresh keeps the reconciler consistent: from a consistent cache it
      settles on a consistent state and leaves a consistent cache. */
  lemma RefreshKeepsConsistency(r: Reconciler, env: RefreshEnv)
    requires !r.refreshing && ConsistentSlot(r.cache)
    ensures Consistent(Refresh(r, env).state)
    ensures ConsistentSlot(Refresh(r, env).cache)
  {
    match FetchActiveSubscriptions(env.store, env.now, env.platform, env.parseDate)
    case Success(subs) =>
      var sel := GetActiveSubscriptionForUser(subs);
      if sel.Some? {
        CacheConversionsInverse(SubscribedState(sel.value, env.now), ToCache(SubscribedState(sel.value, env.now)));
      } else {
        CacheConversionsInverse(UnsubscribedState(env.now), ToCache(UnsubscribedState(env.now)));
      }
    case Failure(_) =>
  }

  /** Offline with a cached VIP entry checked at `t0`: the reconciler settles
      on VIP with `t0` kept as the check time. */
  lemma OfflineWithCachedVip(r: Reconciler, env: RefreshEnv, t0: nat)
    requires !r.refreshing && env.store == StoreError && env.cacheReadOk
    requires r.cache == Some(CachedSubscription(true, Some(VIP), Some(SkuVip), Some("token"), t0))
    ensures Refresh(r, env).state.activePlan == Some(VIP)
    ensures Refresh(r, env).state.isSubscribed
    ensures Refresh(r, env).state.lastCheckedAt == Some(t0)
  {
  }

  // ---------------------------------------------------------------------
  // Mounting and the foreground trigger.

  /** The mount effect's first step: a readable cached entry is shown at
      once, still loading; otherwise nothing changes. Only the state is
      touched. */
  function ShowCached(r: Reconciler, cacheReadOk: bool): (r': Reconciler)
    ensures r' == r.(state := r'.state)
    ensures cacheReadOk && r.cache.Some? ==> r'.state == FromCache(r.cache.value).(loading := true)
    ensures !cacheReadOk || r.cache.None? ==> r' == r
  {
    match LoadCachedSubscription(r.cache, cacheReadOk)
    case Some(c) => r.(state := FromCache(c).(loading := true))
    case None => r
  }

  /** The mount effect: the cached entry shown, then the live refresh. A
      refresh never reads the state it replaces, so the entry shown first
      never outlives it: the mount ends where a refresh from the unshown
      state ends, and shows the cached entry only while another refresh is
      in flight. */
  function Mount(r: Reconciler, cacheReadOk: bool, env: RefreshEnv): (r': Reconciler)
    ensures r'.appState == r.appState
    ensures !r.refreshing ==> !r'.refreshing && !r'.state.loading
    ensures !r.refreshing ==> r' == Refresh(r, env)
    ensures r.refreshing ==> r' == ShowCached(r, cacheReadOk)
  {
    Refresh(ShowCached(r, cacheReadOk), env)
  }

  /** Mounting from the hook's initial state: the state shown first is the
      cached entry, still loading, or the initial state; the state the mount
      settles on is the store's answer whenever the store answers, and the
      cached entry, adopted verbatim, only when it does not. */
  lemma MountFromInitialState(cache: Option<CachedSubscription>, t: Table, app: AppStatus, cacheReadOk: bool, env: RefreshEnv)
    ensures var r := Reconciler(InitialState, false, cache, t, app);
            ShowCached(r, cacheReadOk).state
              == (if cacheReadOk && cache.Some? then FromCache(cache.value).(loading := true) else InitialState)
    ensures var r' := Mount(Reconciler(InitialState, false, cache, t, app), cacheReadOk, env);
            var fetched := FetchActiveSubscriptions(env.store, env.now, env.platform, env.parseDate);
            && (fetched.Success? && GetActiveSubscriptionForUser(fetched.value).Some? ==>
                  r'.state == SubscribedState(GetActiveSubscriptionForUser(fetched.value).value, env.now))
            && (fetched.Success? && GetActiveSubscriptionForUser(fetched.value).None? ==>
                  r'.state == UnsubscribedState(env.now))
            && (env.store.StoreError? && env.cacheReadOk && cache.Some? ==> r'.state == FromCache(cache.value))
            && (env.store.StoreError? && !(env.cacheReadOk && cache.Some?) ==> r'.state == UnsubscribedState(env.now))
  {
  }

  /** The regular expression `/inactive|background/` on the previous app
      state, and the next state `active`. */
  predicate ComesToForeground(previous: AppStatus, next: AppStatus) {
    (previous == Inactive || previous == Background) && next == AppActive
  }

  /** handleAppStateChange: refresh on an inactive or background to active
      transition; the stored app state always becomes the new one. */
  function HandleAppStateChange(r: Reconciler, next: AppStatus, env: RefreshEnv): (r': Reconciler)
    ensures r'.appState == next
    ensures !ComesToForeground(r.appState, next) ==> r' == r.(appState := next)
    ensures ComesToForeground(r.appState, next) ==> r' == Refresh(r, env).(appState := next)
  {
    (if ComesToForeground(r.appState, next) then Refresh(r, env) else r).(appState := next)
  }

  /** The spelling React Native gives each app state. */
  function StatusText(s: AppStatus): string {
    match s
    case AppActive => "active"
    case Background => "background"
    case Inactive => "inactive"
    case UnknownStatus => "unknown"
    case Extension => "extension"
  }

  /** `w` occurs in `s`: what a regular expression made of the literal `w`
      tests. */
  predicate Contains(s: string, w: string)
    decreases |s|
  {
    |w| <= |s| && (s[..|w|] == w || Contains(s[1..], w))
  }

  /** The trigger is the source's test on the spellings: the previous state's
      text matches `/inactive|background/` and the next one is `active`. So
      leaving `active`, `unknown` or `extension` never refreshes. */
  lemma ForegroundMatchesRegex(previous: AppStatus, next: AppStatus)
    ensures ComesToForeground(previous, next)
            <==> (Contains(StatusText(previous), "inactive") || Contains(StatusText(previous), "background"))
                 && StatusText(next) == "active"
    ensures StatusText(previous) in {"active", "unknown", "extension"} ==> !ComesToForeground(previous, next)
  {
    assert StatusText(next) == "active" <==> next == AppActive;
    match previous
    case Inactive =>
      assert "inactive"[..8] == "inactive";
    case Background =>
      assert "background"[..10] == "background";
    case Extension =>
      assert "extension"[..8][0] == 'e' && "inactive"[0] == 'i';
      assert "extension"[1..] == "xtension";
      assert "xtension"[..8][0] == 'x';
      assert !Contains("xtension"[1..], "inactive");
    case _ =>
  }
}
