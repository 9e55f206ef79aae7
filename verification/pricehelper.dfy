/** Display-price extraction from the store's product details
    (src/utils/subscriptionPriceHelper.ts): the localized price of a
    product's first offer and first pricing phase, the billing-period
    wording, and the plan-to-SKU map used to find a plan's product. */
module PriceHelper {
  import opened Wrappers
  import opened Plans
  import Purchases

  /** One pricing phase; a missing or empty field is falsy. */
  datatype Phase = Phase(formattedPrice: Option<string>, billingPeriod: Option<string>, priceCurrencyCode: Option<string>)

  datatype PricingPhases = PricingPhases(pricingPhaseList: Option<seq<Option<Phase>>>)

  datatype Offer = Offer(pricingPhases: Option<PricingPhases>)

  /** A product as the helper reads it: its id (`productId`, or `id` for
      products without one) and its Android offer details, if any. */
  datatype Product = Product(productId: string, offers: Option<seq<Option<Offer>>>)

  datatype DisplayPrice = DisplayPrice(priceText: string, periodText: string, billingPeriod: string, currencyCode: string)

  const PeriodTexts: map<string, string> :=
    map["P1W" := "week", "P1M" := "month", "P3M" := "3 months", "P6M" := "6 months", "P1Y" := "year"]

  /** mapBillingPeriodToText: the wording of the five known ISO 8601
      periods, "period" for anything else. */
  function MapBillingPeriodToText(billingPeriod: string): (text: string)
    ensures billingPeriod in PeriodTexts ==> text == PeriodTexts[billingPeriod]
    ensures billingPeriod !in PeriodTexts ==> text == "period"
  {
    if billingPeriod in PeriodTexts then PeriodTexts[billingPeriod] else "period"
  }

  /** Known periods are told apart by their wording, and none reads as the
      fallback: the wording determines the period whenever it is not
      "period". */
  lemma PeriodTextDeterminesPeriod(a: string, b: string)
    ensures MapBillingPeriodToText(a) != "period" <==> a in PeriodTexts
    ensures a in PeriodTexts && MapBillingPeriodToText(a) == MapBillingPeriodToText(b) ==> a == b
  {
  }

  /** A string the source treats as truthy. */
  predicate Truthy(s: Option<string>) {
    s.Some? && s.value != ""
  }

  /** The first pricing phase of the first offer. When the offer details,
      the first offer and its phase list are present and the list is
      non-empty, it is that list's first entry (which may itself be null);
      otherwise there is none. */
  function FirstPhase(p: Product): (ph: Option<Phase>)
    ensures ph.Some? ==> p.offers.Some? && |p.offers.value| > 0 && p.offers.value[0].Some?
    ensures ph.Some? ==> var o := p.offers.value[0].value;
              && o.pricingPhases.Some? && o.pricingPhases.value.pricingPhaseList.Some?
              && |o.pricingPhases.value.pricingPhaseList.value| > 0
              && o.pricingPhases.value.pricingPhaseList.value[0] == ph
    ensures p.offers.Some? && |p.offers.value| > 0 && p.offers.value[0].Some? ==>
              var o := p.offers.value[0].value;
              o.pricingPhases.Some? && o.pricingPhases.value.pricingPhaseList.Some? &&
              |o.pricingPhases.value.pricingPhaseList.value| > 0 ==>
                ph == o.pricingPhases.value.pricingPhaseList.value[0]
  {
    if p.offers.None? || |p.offers.value| == 0 then None
    else match p.offers.value[0]
      case None => None
      case Some(o) =>
        if o.pricingPhases.None? || o.pricingPhases.value.pricingPhaseList.None?
           || |o.pricingPhases.value.pricingPhaseList.value| == 0 then None
        else o.pricingPhases.value.pricingPhaseList.value[0]  // a null entry throws and is caught: null
  }

  /** getSubscriptionDisplayPrice: null unless the first phase has a price
      and a period; otherwise both copied, the period worded, and the
      currency defaulting to USD. */
  function GetSubscriptionDisplayPrice(p: Product): (r: Option<DisplayPrice>)
    ensures r.Some? <==> FirstPhase(p).Some? && Truthy(FirstPhase(p).value.formattedPrice) && Truthy(FirstPhase(p).value.billingPeriod)
    ensures r.Some? ==> var ph := FirstPhase(p).value;
              && r.value.priceText == ph.formattedPrice.value
              && r.value.billingPeriod == ph.billingPeriod.value
              && r.value.periodText == "per " + MapBillingPeriodToText(ph.billingPeriod.value)
              && r.value.currencyCode == (if Truthy(ph.priceCurrencyCode) then ph.priceCurrencyCode.value else "USD")
  {
    match FirstPhase(p)
    case None => None
    case Some(ph) =>
      if !Truthy(ph.formattedPrice) || !Truthy(ph.billingPeriod) then None
      else Some(DisplayPrice(ph.formattedPrice.value,
                             "per " + MapBillingPeriodToText(ph.billingPeriod.value),
                             ph.billingPeriod.value,
                             if Truthy(ph.priceCurrencyCode) then ph.priceCurrencyCode.value else "USD"))
  }

  /** Only the first offer and its first phase are consulted: later offers,
      later phases and the product's id never change the price. */
  lemma OnlyFirstPhaseMatters(p: Product, q: Product)
    requires p.offers.Some? && q.offers.Some? && |p.offers.value| > 0 && |q.offers.value| > 0
    requires p.offers.value[0].Some? && q.offers.value[0].Some?
    requires var po := p.offers.value[0].value.pricingPhases;
             var qo := q.offers.value[0].value.pricingPhases;
             && po.Some? && qo.Some? && po.value.pricingPhaseList.Some? && qo.value.pricingPhaseList.Some?
             && |po.value.pricingPhaseList.value| > 0 && |qo.value.pricingPhaseList.value| > 0
             && po.value.pricingPhaseList.value[0] == qo.value.pricingPhaseList.value[0]
    ensures GetSubscriptionDisplayPrice(p) == GetSubscriptionDisplayPrice(q)
  {
  }

  /** Missing offer details, an empty offer list, or a first offer without
      phases all give null. */
  lemma NoOffersNoPrice(p: Product)
    requires p.offers.None? || p.offers.value == [] || p.offers.value[0] == Some(Offer(None))
             || p.offers.value[0] == Some(Offer(Some(PricingPhases(Some([])))))
    ensures GetSubscriptionDisplayPrice(p).None?
  {
  }

  /** A monthly phase in rupees, the way the store formats it. */
  lemma MonthlyRupeePrice(id: string, rest: seq<Option<Offer>>)
    ensures var ph := Phase(Some("₹999.00"), Some("P1M"), Some("INR"));
            var p := Product(id, Some([Some(Offer(Some(PricingPhases(Some([Some(ph)])))))] + rest));
            GetSubscriptionDisplayPrice(p) == Some(DisplayPrice("₹999.00", "per month", "P1M", "INR"))
  {
    assert MapBillingPeriodToText("P1M") == "month";
    assert "per " + "month" == "per month";
  }

  /** getProductIdForPlan: the plan's SKU for the three plan names, the
      Basic SKU for anything else. */
  function GetProductIdForPlan(planName: string): (sku: string)
    ensures forall p: PlanName :: planName == Text(p) ==> sku == Purchases.Sku(p)
    ensures !IsValidPlanName(planName) ==> sku == Purchases.SkuBasic
  {
    match ParsePlanName(planName)
    case Some(p) => Purchases.Sku(p)
    case None => Purchases.SkuBasic
  }

  /** getProductIdToPlanName undoes getProductIdForPlan on the three plans,
      and every name, valid or not, maps to a recognised SKU. */
  lemma ProductIdForPlanRoundTrip(p: PlanName, name: string)
    ensures Purchases.ProductIdToPlanName(GetProductIdForPlan(Text(p))) == Some(p)
    ensures Purchases.ProductIdToPlanName(GetProductIdForPlan(name)).Some?
    ensures !IsValidPlanName(name) ==> Purchases.ProductIdToPlanName(GetProductIdForPlan(name)) == Some(Basic)
  {
    ParseText(p);
  }

  /** The index of the first product with the id, as `Array.find` scans. */
  method FindProduct(products: seq<Product>, productId: string) returns (k: Option<nat>)
    ensures k.None? <==> forall j :: 0 <= j < |products| ==> products[j].productId != productId
    ensures k.Some? ==> k.value < |products| && products[k.value].productId == productId
    ensures k.Some? ==> forall j :: 0 <= j < k.value ==> products[j].productId != productId
  {
    var i := 0;
    while i < |products|
      invariant 0 <= i <= |products|
      invariant forall j :: 0 <= j < i ==> products[j].productId != productId
    {
      if products[i].productId == productId {
        return Some(i);
      }
      i := i + 1;
    }
    return None;
  }

  /** getProductDisplayPrice: null when no product has the id; otherwise the
      display price of the first product that has it. */
  method GetProductDisplayPrice(products: seq<Product>, productId: string) returns (r: Option<DisplayPrice>)
    ensures (forall j :: 0 <= j < |products| ==> products[j].productId != productId) ==> r.None?
    ensures forall k :: 0 <= k < |products| && products[k].productId == productId
              && (forall j :: 0 <= j < k ==> products[j].productId != productId)
              ==> r == GetSubscriptionDisplayPrice(products[k])
  {
    var k := FindProduct(products, productId);
    match k
    case None => r := None;
    case Some(i) =>
      r := GetSubscriptionDisplayPrice(products[i]);
      forall k | 0 <= k < |products| && products[k].productId == productId
                 && (forall j :: 0 <= j < k ==> products[j].productId != productId)
        ensures k == i
      {
      }
  }

  /** getProductDisplayPriceByPlanName: the display price of the plan's
      product, with unknown names looking up the Basic product. */
  method GetProductDisplayPriceByPlanName(products: seq<Product>, planName: string) returns (r: Option<DisplayPrice>)
    ensures forall k :: 0 <= k < |products| && products[k].productId == GetProductIdForPlan(planName)
              && (forall j :: 0 <= j < k ==> products[j].productId != GetProductIdForPlan(planName))
              ==> r == GetSubscriptionDisplayPrice(products[k])
    ensures (forall j :: 0 <= j < |products| ==> products[j].productId != GetProductIdForPlan(planName)) ==> r.None?
  {
    r := GetProductDisplayPrice(products, GetProductIdForPlan(planName));
  }
}
