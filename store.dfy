/** The backend's database tables as the services see them through their
    repositories: each table is a list of rows in the order a query without
    an explicit ordering finds them, and `findOne` returns the first row
    that matches. */
module Store {
  import opened Strings
  import opened Plan

  /** `SubscriptionTier`, the coarse tier kept on the user. */
  datatype UserTier = FreeTier | ProTier | BusinessTier | EnterpriseTier

  datatype Role = UserRole | AdminRole

  /** `SubscriptionStatus`. */
  datatype SubStatus = Inactive | Active | Trialing | Canceled | PastDue

  /** A row of `users`; dates are milliseconds since the epoch, and a
      nullable column is an `Option`.  `subscriptionTier` is `None` when
      the loaded entity holds no tier. */
  datatype User = User(
    id: string,
    email: string,
    passwordHash: Option<string>,
    fullName: Option<string>,
    companyName: Option<string>,
    abnAcn: Option<string>,
    companyAddress: Option<string>,
    industry: Option<string>,
    primaryJurisdiction: Option<string>,
    categories: Option<seq<string>>,
    intendedUsage: Option<string>,
    onboardingCompleted: bool,
    termsAcceptedAt: Option<int>,
    disclaimerAckAt: Option<int>,
    role: Role,
    subscriptionTier: Option<UserTier>,
    stripeCustomerId: Option<string>,
    resetTokenHash: Option<string>,
    resetTokenExpiresAt: Option<int>)

  /** A row of `subscriptions`. */
  datatype Subscription = Subscription(
    userId: string,
    stripeCustomerId: Option<string>,
    stripeSubscriptionId: Option<string>,
    stripePriceId: Option<string>,
    tier: BillingTier,
    status: SubStatus,
    currentPeriodEnd: Option<int>,
    startDate: Option<int>,
    createdAt: int)

  /** `ComplexityLevel`. */
  datatype Complexity = Basic | Standard | Complex

  /** A row of `contract_types`; `category` holds a `ContractCategory`
      value. */
  datatype ContractType = ContractType(
    id: string,
    slug: string,
    name: string,
    category: string,
    complexity: Complexity,
    jurisdictionDefault: string,
    isActive: bool,
    primaryFormKeys: Option<seq<string>>)

  datatype DraftStatus = InProgress | ReadyForReview | Finalized

  /** A row of `contract_drafts`; the two JSON columns are key/value maps. */
  datatype Draft = Draft(
    id: string,
    userId: string,
    contractTypeId: string,
    title: string,
    status: DraftStatus,
    jurisdiction: string,
    questionnaireState: map<string, string>,
    aiInputs: map<string, string>,
    version: nat)

  datatype Sender = UserSender | AssistantSender | SystemSender

  /** A row of `chat_messages`. */
  datatype ChatMessage = ChatMessage(draftId: string, sender: Sender, message: string)

  /** A JavaScript string-or-null read for truthiness: null and the empty
      string are falsy. */
  predicate Present(s: Option<string>) {
    s.Some? && s.value != ""
  }

  /** `a ?? b`: the fallback applies to null/undefined only. */
  function Coalesce<T>(a: Option<T>, b: Option<T>): (r: Option<T>)
    ensures a.Some? ==> r == a
    ensures a.None? ==> r == b
  {
    if a.Some? then a else b
  }

  /** `findOne` over rows in table order: the first row satisfying `p`. */
  function Find<T>(rows: seq<T>, p: T -> bool): (r: Option<nat>)
    ensures r.Some? ==> r.value < |rows| && p(rows[r.value])
    ensures r.Some? ==> forall i :: 0 <= i < r.value ==> !p(rows[i])
    ensures r.None? <==> forall i :: 0 <= i < |rows| ==> !p(rows[i])
  {
    if rows == [] then None
    else if p(rows[0]) then Some(0)
    else match Find(rows[1..], p)
      case Some(i) => Some(i + 1)
      case None => None
  }

  /** The rows of `users` and `subscriptions`, the two tables the billing,
      onboarding and plan-setting code write together. */
  datatype Tables = Tables(users: seq<User>, subs: seq<Subscription>)

  /** A repository: the rows of one table, replaced as a whole by every
      save. */
  class Table<T> {
    var rows: seq<T>

    constructor(rows: seq<T>)
      ensures this.rows == rows
    {
      this.rows := rows;
    }
  }
}
