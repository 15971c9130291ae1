/** The billing plans (backend/src/billing/plan.ts): the five billing
    tiers, the Stripe price id of each paid tier and the inverse table from
    price id back to tier, and the usage limits of each tier, normal and
    during a trial. */
module Plan {
  import opened Strings

  datatype BillingTier = Free | ProMonthly | ProYearly | BusinessMonthly | BusinessYearly

  /** The tier's key, as stored in the database and sent by the client. */
  function TierKey(t: BillingTier): string {
    match t
    case Free => "free"
    case ProMonthly => "pro_monthly"
    case ProYearly => "pro_yearly"
    case BusinessMonthly => "business_monthly"
    case BusinessYearly => "business_yearly"
  }

  /** A tier of `PaidBillingTier`, which is also a `PlanKey`. */
  predicate Paid(t: BillingTier) {
    t != Free
  }

  predicate IsPro(t: BillingTier) {
    t == ProMonthly || t == ProYearly
  }

  predicate IsBusiness(t: BillingTier) {
    t == BusinessMonthly || t == BusinessYearly
  }

  /** The price ids read from the environment when the module loads. */
  datatype PriceIds = PriceIds(proMonthly: string, proYearly: string, businessMonthly: string,
                               businessYearly: string)

  /** `STRIPE_PRICE_IDS[t]`, which is also `STRIPE_PLAN_KEY_TO_PRICE_ID[t]`:
      both names denote one table. */
  function PriceId(ids: PriceIds, t: BillingTier): string
    requires Paid(t)
  {
    match t
    case ProMonthly => ids.proMonthly
    case ProYearly => ids.proYearly
    case BusinessMonthly => ids.businessMonthly
    case BusinessYearly => ids.businessYearly
  }

  /** The position of a paid tier among the table's entries. */
  function EntryIndex(t: BillingTier): nat
    requires Paid(t)
  {
    match t
    case ProMonthly => 0
    case ProYearly => 1
    case BusinessMonthly => 2
    case BusinessYearly => 3
  }

  /** `STRIPE_PRICE_TO_TIER`: `Object.fromEntries` over the entries in
      order, so a later entry replaces an earlier one with the same id. */
  function PriceToTier(ids: PriceIds): (m: map<string, BillingTier>)
    ensures m.Keys == {ids.proMonthly, ids.proYearly, ids.businessMonthly, ids.businessYearly}
    ensures forall p :: p in m ==> Paid(m[p]) && PriceId(ids, m[p]) == p
  {
    map[ids.proMonthly := ProMonthly][ids.proYearly := ProYearly][ids.businessMonthly := BusinessMonthly]
      [ids.businessYearly := BusinessYearly]
  }

  /** Each paid tier has a price id of its own. */
  predicate DistinctIds(ids: PriceIds) {
    forall s, t :: Paid(s) && Paid(t) && PriceId(ids, s) == PriceId(ids, t) ==> s == t
  }

  /** With distinct price ids the inverse table undoes `STRIPE_PRICE_IDS`. */
  lemma PriceToTierInverts(ids: PriceIds, t: BillingTier)
    requires DistinctIds(ids) && Paid(t)
    ensures PriceToTier(ids)[PriceId(ids, t)] == t
  {
    var m := PriceToTier(ids);
    var p := PriceId(ids, t);
    assert p in m;
    assert PriceId(ids, m[p]) == p;
  }

  /** Whatever the ids, a shared id is read back as the last tier that
      uses it. */
  lemma SharedIdLastWins(ids: PriceIds, t: BillingTier)
    requires Paid(t)
    ensures var u := PriceToTier(ids)[PriceId(ids, t)]; EntryIndex(t) <= EntryIndex(u)
  {
  }

  datatype LibraryAccess = Limited | Full

  datatype PlanLimits = PlanLimits(contractsPerMonth: nat, watermarkExports: bool,
                                   libraryAccess: LibraryAccess, priorityAi: bool, teamFeatures: bool)

  const FreeLimits := PlanLimits(3, true, Limited, false, false)
  const ProLimits := PlanLimits(9999, false, Full, true, false)
  const BusinessLimits := PlanLimits(9999, false, Full, true, true)
  const ProTrialLimits := PlanLimits(5, false, Full, true, false)
  const BusinessTrialLimits := PlanLimits(5, false, Full, true, true)

  /** `PLAN_LIMITS[t]`: only `free` watermarks exports, sees the limited
      library, has no priority model access and 3 contracts a month; every
      paid tier has 9999; team features come with the business tiers. */
  function Limits(t: BillingTier): (r: PlanLimits)
    ensures r.watermarkExports <==> t == Free
    ensures r.libraryAccess == Limited <==> t == Free
    ensures r.priorityAi <==> Paid(t)
    ensures r.contractsPerMonth == if t == Free then 3 else 9999
    ensures r.teamFeatures <==> IsBusiness(t)
  {
    match t
    case Free => FreeLimits
    case ProMonthly => ProLimits
    case ProYearly => ProLimits
    case BusinessMonthly => BusinessLimits
    case BusinessYearly => BusinessLimits
  }

  /** `TRIAL_LIMITS[t]`, defined for the paid tiers only: 5 contracts a
      month, no watermark, team features with the business tiers. */
  function TrialLimits(t: BillingTier): (r: Option<PlanLimits>)
    ensures r.None? <==> t == Free
    ensures r.Some? ==> r.value.contractsPerMonth == 5 && !r.value.watermarkExports
    ensures r.Some? ==> (r.value.teamFeatures <==> IsBusiness(t))
  {
    match t
    case Free => None
    case ProMonthly => Some(ProTrialLimits)
    case ProYearly => Some(ProTrialLimits)
    case BusinessMonthly => Some(BusinessTrialLimits)
    case BusinessYearly => Some(BusinessTrialLimits)
  }

  /** A trial grants what the paid tier grants, except the monthly
      allowance, which is 5. */
  lemma TrialIsPlanWithFive(t: BillingTier)
    requires Paid(t)
    ensures TrialLimits(t) == Some(Limits(t).(contractsPerMonth := 5))
  {
  }
}
