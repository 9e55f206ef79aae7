/** The plan catalog: the closed set of plans, their monthly analysis
    allowances and the billing period (src/constants/subscriptionPlans.ts). */
module Plans {
  import opened Wrappers

  datatype PlanName = Basic | Pro | VIP

  /** The plan's name as it is spelled in the backend and in the app. */
  function Text(p: PlanName): string {
    match p
    case Basic => "Basic"
    case Pro => "Pro"
    case VIP => "VIP"
  }

  /** PLAN_LIMITS: analyses per billing cycle. */
  const PlanLimits: map<PlanName, nat> := map[Basic := 5, Pro := 20, VIP := 50]

  /** getPlanLimit: the catalog's allowance for a plan; every plan has one,
      and it is never zero. */
  function GetPlanLimit(p: PlanName): (n: nat)
    ensures p in PlanLimits && n == PlanLimits[p]
    ensures n > 0
  {
    match p
    case Basic => PlanLimits[Basic]
    case Pro => PlanLimits[Pro]
    case VIP => PlanLimits[VIP]
  }

  /** getBillingPeriodMs with the build-mode flag `dev` (`__DEV__`) made a
      parameter: five minutes in development, thirty days in production. */
  function BillingPeriodMs(dev: bool): (ms: nat)
    ensures dev ==> ms == 300_000
    ensures !dev ==> ms == 2_592_000_000
    ensures ms > 0
  {
    if dev then 5 * 60 * 1000 else 30 * 24 * 60 * 60 * 1000
  }

  /** isValidPlanName: true exactly for the spelling of some plan. */
  predicate IsValidPlanName(s: string)
    ensures IsValidPlanName(s) <==> exists p: PlanName :: Text(p) == s
  {
    if s == "Basic" then assert Text(Basic) == s; true
    else if s == "Pro" then assert Text(Pro) == s; true
    else if s == "VIP" then assert Text(VIP) == s; true
    else false
  }

  /** The plan a valid name denotes (the narrowing that isValidPlanName's
      type guard performs). */
  function ParsePlanName(s: string): (r: Option<PlanName>)
    ensures r.Some? <==> IsValidPlanName(s)
    ensures r.Some? ==> Text(r.value) == s
  {
    if s == "Basic" then Some(Basic)
    else if s == "Pro" then Some(Pro)
    else if s == "VIP" then Some(VIP)
    else None
  }

  /** `PLAN_LIMITS[name]` on an unchecked string, as useQuota.ts does with
      `data.plan_name as PlanName`: defined only for valid names. */
  function LimitByName(s: string): (r: Option<nat>)
    ensures r.Some? <==> IsValidPlanName(s)
    ensures forall p: PlanName :: Text(p) == s ==> r == Some(GetPlanLimit(p))
  {
    match ParsePlanName(s)
    case Some(p) => Some(GetPlanLimit(p))
    case None => None
  }

  /** Every plan's name parses back to that plan. */
  lemma ParseText(p: PlanName)
    ensures ParsePlanName(Text(p)) == Some(p)
    ensures IsValidPlanName(Text(p))
  {
  }
}
