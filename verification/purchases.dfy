/** Purchase normalisation and entitlement selection
    (src/utils/subscriptionHelper.ts): the store's raw purchases are put into
    one shape, filtered to the app's own subscription SKUs, and the one with
    the latest transaction date becomes the active subscription. */
module Purchases {
  import opened Wrappers
  import opened Plans

  /** SUBSCRIPTION_SKUS: the store product id of each plan. */
  const SkuBasic: string := "muscleai.basic.monthly"
  const SkuPro: string := "muscleai.pro.monthly"
  const SkuVip: string := "muscleai.vip.monthly"

  function Sku(p: PlanName): string {
    match p
    case Basic => SkuBasic
    case Pro => SkuPro
    case VIP => SkuVip
  }

  lemma SkusDistinct()
    ensures forall p, q: PlanName :: Sku(p) == Sku(q) ==> p == q
  {
  }

  datatype Platform = Android | Ios

  /** The store's `transactionDate`: missing, epoch milliseconds, or a date
      string. */
  datatype RawDate = Absent | Millis(ms: int) | DateText(text: string)

  /** A purchase as the store client returns it. */
  datatype RawPurchase = RawPurchase(productId: string, purchaseToken: Option<string>, transactionDate: RawDate)

  datatype NormalizedPurchase = NormalizedPurchase(
    productId: string,
    purchaseToken: string,
    transactionDate: int,
    platform: Platform)

  datatype ActiveSubscription = ActiveSubscription(
    productId: string,
    planName: PlanName,
    purchaseToken: string,
    transactionDate: int)

  /** What the store query returns: the active purchases, or a thrown error
      (billing not initialised, offline, store error). */
  datatype StoreResponse = StorePurchases(items: seq<RawPurchase>) | StoreError

  datatype StoreFailure = StoreUnavailable

  /** The transaction date in milliseconds. A date that is missing, zero or
      the empty string is falsy in the source and becomes `now`; a string is
      handed to the date parser `parseDate` (`new Date(s).getTime()`). */
  function NormalizeDate(d: RawDate, now: nat, parseDate: string -> int): (ms: int)
    ensures d.Millis? && d.ms != 0 ==> ms == d.ms
    ensures d.DateText? && d.text != "" ==> ms == parseDate(d.text)
    ensures d.Absent? || d == Millis(0) || d == DateText("") ==> ms == now
  {
    match d
    case Absent => now
    case Millis(n) => if n != 0 then n else now
    case DateText(s) => if s != "" then parseDate(s) else now
  }

  /** The per-purchase mapping inside fetchActiveSubscriptions. */
  function Normalize(p: RawPurchase, now: nat, platform: Platform, parseDate: string -> int): (n: NormalizedPurchase)
    ensures n.productId == p.productId
    ensures n.purchaseToken == p.purchaseToken.GetOr("")
    ensures n.transactionDate == NormalizeDate(p.transactionDate, now, parseDate)
    ensures n.platform == platform
  {
    NormalizedPurchase(p.productId, p.purchaseToken.GetOr(""), NormalizeDate(p.transactionDate, now, parseDate), platform)
  }

  /** fetchActiveSubscriptions: a store error is rethrown, never turned into
      an empty list; otherwise every purchase is normalised, in order. */
  function FetchActiveSubscriptions(resp: StoreResponse, now: nat, platform: Platform, parseDate: string -> int)
    : (r: Result<seq<NormalizedPurchase>, StoreFailure>)
    ensures r.Failure? <==> resp.StoreError?
    ensures r.Success? ==> |r.value| == |resp.items|
    ensures r.Success? ==> forall i :: 0 <= i < |r.value| ==>
              r.value[i] == Normalize(resp.items[i], now, platform, parseDate)
  {
    match resp
    case StoreError => Failure(StoreUnavailable)
    case StorePurchases(items) =>
      Success(seq(|items|, i requires 0 <= i < |items| => Normalize(items[i], now, platform, parseDate)))
  }

  /** getProductIdToPlanName: total; a plan exactly for the three SKUs. */
  function ProductIdToPlanName(productId: string): (r: Option<PlanName>)
    ensures forall p: PlanName :: r == Some(p) <==> productId == Sku(p)
  {
    if productId == SkuBasic then Some(Basic)
    else if productId == SkuPro then Some(Pro)
    else if productId == SkuVip then Some(VIP)
    else None
  }

  predicate Recognised(p: NormalizedPurchase) {
    ProductIdToPlanName(p.productId).Some?
  }

  /** The `filter` step: the recognised purchases, in their input order. */
  function Filter(s: seq<NormalizedPurchase>): (v: seq<NormalizedPurchase>)
    ensures |v| <= |s|
    ensures forall x :: x in v ==> x in s && Recognised(x)
    ensures forall x :: x in s && Recognised(x) ==> x in v
  {
    if |s| == 0 then []
    else (if Recognised(s[0]) then [s[0]] else []) + Filter(s[1..])
  }

  /** One step of the `reduce`: the current purchase replaces the latest only
      when its date is strictly greater. */
  function Later(latest: NormalizedPurchase, current: NormalizedPurchase): NormalizedPurchase {
    if current.transactionDate > latest.transactionDate then current else latest
  }

  /** The `reduce` without an initial value, seeded with the first element. */
  function FoldLatest(latest: NormalizedPurchase, rest: seq<NormalizedPurchase>): (r: NormalizedPurchase)
    ensures r == latest || r in rest
    ensures r.transactionDate >= latest.transactionDate
    decreases |rest|
  {
    if |rest| == 0 then latest
    else FoldLatest(Later(latest, rest[0]), rest[1..])
  }

  function Activate(p: NormalizedPurchase, plan: PlanName): ActiveSubscription {
    ActiveSubscription(p.productId, plan, p.purchaseToken, p.transactionDate)
  }

  /** Selection over an already filtered list. The `None` arm of the plan
      lookup mirrors the source's second null return. */
  function SelectValid(valid: seq<NormalizedPurchase>): Option<ActiveSubscription>
  {
    if |valid| == 0 then None
    else
      var latest := FoldLatest(valid[0], valid[1..]);
      match ProductIdToPlanName(latest.productId)
      case None => None
      case Some(plan) => Some(Activate(latest, plan))
  }

  /** getActiveSubscriptionForUser. */
  function GetActiveSubscriptionForUser(subs: seq<NormalizedPurchase>): (r: Option<ActiveSubscription>)
    ensures r.None? <==> forall p :: p in subs ==> !Recognised(p)
    ensures r.Some? ==> exists p :: p in subs && Recognised(p) && r.value.productId == p.productId
                                   && r.value.purchaseToken == p.purchaseToken
                                   && r.value.transactionDate == p.transactionDate
    ensures r.Some? ==> ProductIdToPlanName(r.value.productId) == Some(r.value.planName)
  {
    var valid := Filter(subs);
    if |valid| == 0 then
      None
    else
      var latest := FoldLatest(valid[0], valid[1..]);
      assert latest in valid;
      SelectValid(valid)
  }

  // ---------------------------------------------------------------------
  // The selection, characterised by index.

  /** No recognised purchase in `s` is dated after `d`. */
  ghost predicate NoneLater(s: seq<NormalizedPurchase>, d: int) {
    forall j :: 0 <= j < |s| && Recognised(s[j]) ==> s[j].transactionDate <= d
  }

  /** Every recognised purchase before index `i` is dated strictly before `d`. */
  ghost predicate EarlierBefore(s: seq<NormalizedPurchase>, i: int, d: int) {
    forall j :: 0 <= j < i && j < |s| && Recognised(s[j]) ==> s[j].transactionDate < d
  }

  /** `i` is the first recognised purchase whose date is the maximum over all
      recognised purchases: the one the strict `>` of the reduce keeps. */
  ghost predicate IsSelected(s: seq<NormalizedPurchase>, i: int) {
    && 0 <= i < |s|
    && Recognised(s[i])
    && NoneLater(s, s[i].transactionDate)
    && EarlierBefore(s, i, s[i].transactionDate)
  }

  /** At most one index is the selected one. */
  lemma SelectedIsUnique(s: seq<NormalizedPurchase>, i: int, k: int)
    requires IsSelected(s, i) && IsSelected(s, k)
    ensures i == k
  {
  }

  lemma NoneLaterCons(s: seq<NormalizedPurchase>, d: int)
    requires |s| > 0
    requires Recognised(s[0]) ==> s[0].transactionDate <= d
    requires NoneLater(s[1..], d)
    ensures NoneLater(s, d)
  {
    forall j | 0 <= j < |s| && Recognised(s[j])
      ensures s[j].transactionDate <= d
    {
      if j > 0 { assert s[j] == s[1..][j - 1]; }
    }
  }

  lemma SelectedCons(s: seq<NormalizedPurchase>, i: int)
    requires |s| > 0 && IsSelected(s[1..], i)
    requires Recognised(s[0]) ==> s[0].transactionDate < s[i + 1].transactionDate
    ensures IsSelected(s, i + 1)
  {
    assert s[i + 1] == s[1..][i];
    NoneLaterCons(s, s[i + 1].transactionDate);
    forall j | 0 <= j < i + 1 && Recognised(s[j])
      ensures s[j].transactionDate < s[i + 1].transactionDate
    {
      if j > 0 { assert s[j] == s[1..][j - 1]; }
    }
  }

  /** The fold over the recognised part of `rest`, started from `latest`:
      either nothing in `rest` is later than `latest` and `latest` stays, or
      the result is the selected element of `rest`, strictly later than
      `latest`. */
  lemma {:induction false} FoldOverFilter(latest: NormalizedPurchase, rest: seq<NormalizedPurchase>)
    ensures var res := FoldLatest(latest, Filter(rest));
      || (res == latest && NoneLater(rest, latest.transactionDate))
      || (res.transactionDate > latest.transactionDate && exists i :: IsSelected(rest, i) && res == rest[i])
    decreases |rest|
  {
    if |rest| == 0 {
      return;
    }
    var x, t := rest[0], rest[1..];
    var res := FoldLatest(latest, Filter(rest));
    if !Recognised(x) {
      assert Filter(rest) == Filter(t);
      FoldOverFilter(latest, t);
      if res == latest && NoneLater(t, latest.transactionDate) {
        NoneLaterCons(rest, latest.transactionDate);
      } else {
        var i :| IsSelected(t, i) && res == t[i];
        SelectedCons(rest, i);
      }
    } else {
      assert Filter(rest) == [x] + Filter(t);
      assert res == FoldLatest(Later(latest, x), Filter(t)) by {
        assert ([x] + Filter(t))[0] == x;
        assert ([x] + Filter(t))[1..] == Filter(t);
      }
      var seed := Later(latest, x);
      FoldOverFilter(seed, t);
      if res == seed && NoneLater(t, seed.transactionDate) {
        NoneLaterCons(rest, seed.transactionDate);
        if x.transactionDate > latest.transactionDate {
          assert IsSelected(rest, 0);
        }
      } else {
        var i :| IsSelected(t, i) && res == t[i];
        SelectedCons(rest, i);
      }
    }
  }

  /** The reduce over the filtered list picks the selected index. */
  lemma {:induction false} LatestIsSelected(s: seq<NormalizedPurchase>)
    requires |Filter(s)| > 0
    ensures exists i :: IsSelected(s, i) && FoldLatest(Filter(s)[0], Filter(s)[1..]) == s[i]
    decreases |s|
  {
    var x, t := s[0], s[1..];
    if Recognised(x) {
      assert Filter(s) == [x] + Filter(t);
      assert Filter(s)[0] == x && Filter(s)[1..] == Filter(t);
      var res := FoldLatest(x, Filter(t));
      FoldOverFilter(x, t);
      if res == x && NoneLater(t, x.transactionDate) {
        NoneLaterCons(s, x.transactionDate);
        assert IsSelected(s, 0);
      } else {
        var i :| IsSelected(t, i) && res == t[i];
        SelectedCons(s, i);
      }
    } else {
      assert Filter(s) == Filter(t);
      LatestIsSelected(t);
      var i :| IsSelected(t, i) && FoldLatest(Filter(t)[0], Filter(t)[1..]) == t[i];
      SelectedCons(s, i);
    }
  }

  /** The selection, stated against the unfiltered input: no result exactly
      when nothing is recognised; otherwise the result copies the first
      recognised purchase carrying the latest date, with its plan. */
  lemma SelectionSpec(s: seq<NormalizedPurchase>)
    ensures GetActiveSubscriptionForUser(s).None? <==> forall i :: 0 <= i < |s| ==> !Recognised(s[i])
    ensures GetActiveSubscriptionForUser(s).Some? ==>
              exists i :: IsSelected(s, i)
                       && GetActiveSubscriptionForUser(s) == Some(Activate(s[i], ProductIdToPlanName(s[i].productId).value))
  {
    if |Filter(s)| > 0 {
      LatestIsSelected(s);
    } else {
      forall i | 0 <= i < |s|
        ensures !Recognised(s[i])
      {
        assert s[i] in s;
      }
    }
  }

  /** The store's answer decides the subscription: none exactly when no
      purchase the store lists carries a known SKU; otherwise the listed
      purchase selected by normalised date, with its token defaulted to ""
      and its date normalised. */
  lemma StoreAnswerDecidesSubscription(items: seq<RawPurchase>, now: nat, platform: Platform, parseDate: string -> int)
    ensures var r := GetActiveSubscriptionForUser(FetchActiveSubscriptions(StorePurchases(items), now, platform, parseDate).value);
            r.None? <==> forall i :: 0 <= i < |items| ==> ProductIdToPlanName(items[i].productId).None?
    ensures var s := FetchActiveSubscriptions(StorePurchases(items), now, platform, parseDate).value;
            var r := GetActiveSubscriptionForUser(s);
            r.Some? ==> exists i :: && IsSelected(s, i)
                                   && r.value == ActiveSubscription(items[i].productId,
                                                                    ProductIdToPlanName(items[i].productId).value,
                                                                    items[i].purchaseToken.GetOr(""),
                                                                    NormalizeDate(items[i].transactionDate, now, parseDate))
  {
    var s := FetchActiveSubscriptions(StorePurchases(items), now, platform, parseDate).value;
    SelectionSpec(s);
    assert forall i :: 0 <= i < |items| ==> s[i].productId == items[i].productId;
  }

  /** Every recognised purchase is dated no later than the selected one. */
  lemma SelectedIsLatest(s: seq<NormalizedPurchase>, j: int)
    requires 0 <= j < |s| && Recognised(s[j])
    ensures GetActiveSubscriptionForUser(s).Some?
    ensures s[j].transactionDate <= GetActiveSubscriptionForUser(s).value.transactionDate
  {
    assert s[j] in s;
    SelectionSpec(s);
  }

  /** Ties: a recognised purchase that comes before the selected one in the
      input has a strictly earlier date, so among equal dates the first one
      wins. */
  lemma TiesGoToTheFirst(s: seq<NormalizedPurchase>, i: int, j: int)
    requires IsSelected(s, i)
    requires 0 <= j < |s| && Recognised(s[j]) && s[j].transactionDate == s[i].transactionDate
    ensures i <= j
    ensures GetActiveSubscriptionForUser(s) == Some(Activate(s[i], ProductIdToPlanName(s[i].productId).value))
  {
    SelectionSpec(s);
    var k :| IsSelected(s, k) && GetActiveSubscriptionForUser(s) == Some(Activate(s[k], ProductIdToPlanName(s[k].productId).value));
    SelectedIsUnique(s, i, k);
  }

  lemma {:induction false} FilterConcat(a: seq<NormalizedPurchase>, b: seq<NormalizedPurchase>)
    ensures Filter(a + b) == Filter(a) + Filter(b)
    decreases |a|
  {
    if |a| == 0 {
      assert a + b == b;
    } else {
      assert (a + b)[0] == a[0];
      assert (a + b)[1..] == a[1..] + b;
      FilterConcat(a[1..], b);
    }
  }

  /** Inserting an unrecognised purchase anywhere leaves the selection
      unchanged (and so does removing one). */
  lemma UnrecognisedIsIgnored(a: seq<NormalizedPurchase>, u: NormalizedPurchase, b: seq<NormalizedPurchase>)
    requires !Recognised(u)
    ensures GetActiveSubscriptionForUser(a + [u] + b) == GetActiveSubscriptionForUser(a + b)
  {
    FilterConcat(a + [u], b);
    FilterConcat(a, [u]);
    FilterConcat(a, b);
    assert Filter([u]) == [];
    SameFilterSameSelection(a + [u] + b, a + b);
  }

  /** The selection depends on the recognised purchases only. */
  lemma SameFilterSameSelection(s1: seq<NormalizedPurchase>, s2: seq<NormalizedPurchase>)
    requires Filter(s1) == Filter(s2)
    ensures GetActiveSubscriptionForUser(s1) == GetActiveSubscriptionForUser(s2)
  {
    assert GetActiveSubscriptionForUser(s1) == SelectValid(Filter(s1));
    assert GetActiveSubscriptionForUser(s2) == SelectValid(Filter(s2));
  }

  /** A single Pro purchase becomes a Pro subscription with its own date. */
  lemma SingleProPurchase(token: string, t1: int, platform: Platform)
    ensures GetActiveSubscriptionForUser([NormalizedPurchase(SkuPro, token, t1, platform)])
         == Some(ActiveSubscription(SkuPro, Pro, token, t1))
  {
    var s := [NormalizedPurchase(SkuPro, token, t1, platform)];
    assert Filter(s) == s by {
      assert s[1..] == [];
    }
  }

  // ---------------------------------------------------------------------
  // Plan priority.

  /** PLAN_PRIORITY: higher is better. */
  function Priority(p: PlanName): nat {
    match p
    case VIP => 3
    case Pro => 2
    case Basic => 1
  }

  /** isPlanBetterOrEqual. */
  predicate IsPlanBetterOrEqual(a: PlanName, b: PlanName) {
    Priority(a) >= Priority(b)
  }

  /** The priority comparison is a total order with VIP above Pro above
      Basic. */
  lemma PlanOrderIsTotal()
    ensures forall a :: IsPlanBetterOrEqual(a, a)
    ensures forall a, b :: IsPlanBetterOrEqual(a, b) || IsPlanBetterOrEqual(b, a)
    ensures forall a, b :: IsPlanBetterOrEqual(a, b) && IsPlanBetterOrEqual(b, a) ==> a == b
    ensures forall a, b, c :: IsPlanBetterOrEqual(a, b) && IsPlanBetterOrEqual(b, c) ==> IsPlanBetterOrEqual(a, c)
    ensures IsPlanBetterOrEqual(VIP, Pro) && !IsPlanBetterOrEqual(Pro, VIP)
    ensures IsPlanBetterOrEqual(Pro, Basic) && !IsPlanBetterOrEqual(Basic, Pro)
  {
  }
}
