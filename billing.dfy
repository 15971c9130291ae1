/** The subscription bookkeeping of the billing service
    (backend/src/billing/billing.service.ts): Stripe's subscription objects
    are mirrored into the `subscriptions` table, one row per user and
    Stripe subscription, and the user's coarse tier follows the billing
    tier of the last subscription written.  Each state change is a function
    from the two tables to their new contents, and each service method is
    proved to perform it. */
module Billing {
  import opened Strings
  import opened Plan
  import opened Store

  // ---------------------------------------------------------------------
  // Mappings
  // ---------------------------------------------------------------------

  /** `mapStripeStatus`: every Stripe status maps to one of ours, and the
      ones Stripe may add later become `inactive`. */
  function MapStripeStatus(status: string): (r: SubStatus)
    ensures r == Trialing <==> status == "trialing"
    ensures r == Active <==> status == "active"
    ensures r == PastDue <==> status == "past_due" || status == "unpaid"
    ensures r == Canceled <==> status == "canceled" || status == "incomplete_expired"
    ensures r == Inactive <==>
      status !in {"trialing", "active", "past_due", "unpaid", "canceled", "incomplete_expired"}
  {
    if status == "trialing" then Trialing
    else if status == "active" then Active
    else if status == "past_due" || status == "unpaid" then PastDue
    else if status == "canceled" || status == "incomplete_expired" then Canceled
    else Inactive
  }

  /** `mapBillingTierToUserTier`: the coarse tier of a billing tier; the
      enterprise tier is never produced. */
  function UserTierOf(t: BillingTier): (r: UserTier)
    ensures r == ProTier <==> IsPro(t)
    ensures r == BusinessTier <==> IsBusiness(t)
    ensures r == FreeTier <==> t == Free
  {
    match t
    case ProMonthly => ProTier
    case ProYearly => ProTier
    case BusinessMonthly => BusinessTier
    case BusinessYearly => BusinessTier
    case Free => FreeTier
  }

  // ---------------------------------------------------------------------
  // Stripe objects
  // ---------------------------------------------------------------------

  /** The JavaScript value found at `current_period_end`. */
  datatype Stamp = Missing | Number(seconds: int) | NotNumber

  /** An item of a Stripe subscription: its price's id, if it has a price,
      and its period end. */
  datatype StripeItem = StripeItem(priceId: Option<string>, currentPeriodEnd: Stamp)

  datatype StripeSubscription = StripeSubscription(id: string, customer: string, status: string,
                                                   startDate: int, items: seq<StripeItem>)

  /** `items.data[0]?.price?.id`, when truthy. */
  function PriceOf(s: StripeSubscription): (r: Option<string>)
    ensures r.Some? ==> r.value != ""
  {
    if |s.items| > 0 && Present(s.items[0].priceId) then s.items[0].priceId else None
  }

  /** `getCurrentPeriodEndFromSubscription`: the first item's period end in
      milliseconds, or null when it is missing, zero or not a number. */
  function CurrentPeriodEnd(s: StripeSubscription): (r: Option<int>)
    ensures r.None? <==> |s.items| == 0 || !s.items[0].currentPeriodEnd.Number?
                         || s.items[0].currentPeriodEnd.seconds == 0
    ensures r.Some? ==> r.value == s.items[0].currentPeriodEnd.seconds * 1000
  {
    if |s.items| > 0 then
      match s.items[0].currentPeriodEnd
      case Number(ts) => if ts == 0 then None else Some(ts * 1000)
      case _ => None
    else None
  }

  /** `STRIPE_PRICE_TO_TIER[priceId] ?? 'free'`: a known price gives the
      paid tier whose price it is; an unknown one gives `free`. */
  function TierOfPrice(ids: PriceIds, priceId: string): (t: BillingTier)
    ensures priceId !in PriceToTier(ids) ==> t == Free
    ensures priceId in PriceToTier(ids) ==> Paid(t) && PriceId(ids, t) == priceId
  {
    if priceId in PriceToTier(ids) then PriceToTier(ids)[priceId] else Free
  }

  // ---------------------------------------------------------------------
  // The upsert (billing.service.ts:328-381)
  // ---------------------------------------------------------------------

  /** The row that mirrors Stripe subscription `subId` of user `userId`. */
  predicate Mirrors(r: Subscription, userId: string, subId: string) {
    r.userId == userId && r.stripeSubscriptionId == Some(subId)
  }

  /** No two rows mirror the same Stripe subscription of the same user. */
  predicate UniqueMirrors(subs: seq<Subscription>) {
    forall i, j :: 0 <= i < j < |subs| && subs[i].stripeSubscriptionId.Some? ==>
      !Mirrors(subs[j], subs[i].userId, subs[i].stripeSubscriptionId.value)
  }

  /** The fields every upsert writes. */
  function Refreshed(r: Subscription, s: StripeSubscription, priceId: string, ids: PriceIds): Subscription {
    r.(stripePriceId := Some(priceId), tier := TierOfPrice(ids, priceId), status := MapStripeStatus(s.status),
       currentPeriodEnd := CurrentPeriodEnd(s), stripeCustomerId := Some(s.customer))
  }

  /** The row `subscriptionsRepo.create` makes: the start date is Stripe's,
      in milliseconds; the status is the column default. */
  function Created(userId: string, s: StripeSubscription, now: int): Subscription {
    Subscription(userId, Some(s.customer), Some(s.id), None, Free, Inactive, None, Some(s.startDate * 1000), now)
  }

  /** Update the row mirroring `s`, or create one. */
  function UpsertSubs(subs: seq<Subscription>, userId: string, s: StripeSubscription, priceId: string,
                      ids: PriceIds, now: int): seq<Subscription>
  {
    match Find(subs, (r: Subscription) => Mirrors(r, userId, s.id))
    case Some(k) => subs[k := Refreshed(subs[k], s, priceId, ids)]
    case None => subs + [Refreshed(Created(userId, s, now), s, priceId, ids)]
  }

  /** `upsertFromStripeSubscription(s, users[k])`: nothing without a price;
      otherwise the mirror row is written and the user's tier follows. */
  function Upsert(t: Tables, k: nat, s: StripeSubscription, ids: PriceIds, now: int): Tables
    requires k < |t.users|
  {
    match PriceOf(s)
    case None => t
    case Some(priceId) =>
      var user := t.users[k];
      Tables(t.users[k := user.(subscriptionTier := Some(UserTierOf(TierOfPrice(ids, priceId))))],
             UpsertSubs(t.subs, user.id, s, priceId, ids, now))
  }

  /** Upserting keeps one row per user and Stripe subscription. */
  lemma UpsertKeepsUnique(subs: seq<Subscription>, userId: string, s: StripeSubscription, priceId: string,
                          ids: PriceIds, now: int)
    requires UniqueMirrors(subs)
    ensures UniqueMirrors(UpsertSubs(subs, userId, s, priceId, ids, now))
  {
    var r := UpsertSubs(subs, userId, s, priceId, ids, now);
    match Find(subs, (x: Subscription) => Mirrors(x, userId, s.id))
    case Some(k) =>
      forall i, j | 0 <= i < j < |r| && r[i].stripeSubscriptionId.Some?
        ensures !Mirrors(r[j], r[i].userId, r[i].stripeSubscriptionId.value)
      {
        assert r[i].userId == subs[i].userId && r[i].stripeSubscriptionId == subs[i].stripeSubscriptionId;
        assert r[j].userId == subs[j].userId && r[j].stripeSubscriptionId == subs[j].stripeSubscriptionId;
      }
    case None =>
      forall i, j | 0 <= i < j < |r| && r[i].stripeSubscriptionId.Some?
        ensures !Mirrors(r[j], r[i].userId, r[i].stripeSubscriptionId.value)
      {
        if j == |subs| {
          assert !Mirrors(subs[i], userId, s.id);
        }
      }
  }

  /** After an upsert a row mirrors `s`, holding what Stripe reports; the
      table grows by one row exactly when there was none, and an existing
      row keeps its start date, which only creation sets. */
  lemma UpsertWrites(subs: seq<Subscription>, userId: string, s: StripeSubscription, priceId: string,
                     ids: PriceIds, now: int)
    ensures var r := UpsertSubs(subs, userId, s, priceId, ids, now);
      var old_ := Find(subs, (x: Subscription) => Mirrors(x, userId, s.id));
      var k := if old_.Some? then old_.value else |subs|;
      && |r| == |subs| + (if old_.Some? then 0 else 1)
      && k < |r| && Mirrors(r[k], userId, s.id)
      && r[k].tier == TierOfPrice(ids, priceId) && r[k].status == MapStripeStatus(s.status)
      && r[k].currentPeriodEnd == CurrentPeriodEnd(s) && r[k].stripePriceId == Some(priceId)
      && r[k].startDate == (if old_.Some? then subs[k].startDate else Some(s.startDate * 1000))
      && forall i :: 0 <= i < |subs| && i != k ==> r[i] == subs[i]
  {
  }

  /** Replaying the same Stripe subscription creates no second row. */
  lemma UpsertTwiceAddsNothing(subs: seq<Subscription>, userId: string, s: StripeSubscription, priceId: string,
                               ids: PriceIds, now: int, later: int)
    ensures var once := UpsertSubs(subs, userId, s, priceId, ids, now);
      |UpsertSubs(once, userId, s, priceId, ids, later)| == |once|
  {
    var once := UpsertSubs(subs, userId, s, priceId, ids, now);
    UpsertWrites(subs, userId, s, priceId, ids, now);
    var found := Find(subs, (x: Subscription) => Mirrors(x, userId, s.id));
    var k := if found.Some? then found.value else |subs|;
    assert Mirrors(once[k], userId, s.id);
    assert Find(once, (x: Subscription) => Mirrors(x, userId, s.id)).Some?;
  }

  /** The user's coarse tier is the one of the billing tier just written
      to the mirror row; no other user changes. */
  lemma UpsertSyncsUserTier(t: Tables, k: nat, s: StripeSubscription, ids: PriceIds, now: int)
    requires k < |t.users| && PriceOf(s).Some?
    ensures var r := Upsert(t, k, s, ids, now);
      var row := Find(r.subs, (x: Subscription) => Mirrors(x, t.users[k].id, s.id));
      && |r.users| == |t.users|
      && row.Some?
      && r.users[k].subscriptionTier == Some(UserTierOf(r.subs[row.value].tier))
      && forall j :: 0 <= j < |t.users| && j != k ==> r.users[j] == t.users[j]
  {
    var priceId := PriceOf(s).value;
    var userId := t.users[k].id;
    UpsertWrites(t.subs, userId, s, priceId, ids, now);
    var r := Upsert(t, k, s, ids, now);
    var found := Find(t.subs, (x: Subscription) => Mirrors(x, userId, s.id));
    var i := if found.Some? then found.value else |t.subs|;
    assert Mirrors(r.subs[i], userId, s.id);
    var row := Find(r.subs, (x: Subscription) => Mirrors(x, userId, s.id));
    assert row.Some?;
    if found.Some? {
      assert forall j :: 0 <= j < i ==> r.subs[j] == t.subs[j];
    }
    assert row.value == i;
  }

  /** `upsertFromStripeSubscription(stripeSub, user)`, `user` being row `k`
      of `users`. */
  method UpsertFromStripeSubscription(users: Table<User>, subs: Table<Subscription>, k: nat,
                                      s: StripeSubscription, ids: PriceIds, now: int)
    requires k < |users.rows|
    modifies users, subs
    ensures Tables(users.rows, subs.rows) == Upsert(old(Tables(users.rows, subs.rows)), k, s, ids, now)
  {
    var price := PriceOf(s);
    if price.None? {
      return;
    }
    var priceId := price.value;
    var tier := TierOfPrice(ids, priceId);
    var user := users.rows[k];
    var existing := Find(subs.rows, (r: Subscription) => Mirrors(r, user.id, s.id));
    if existing.Some? {
      subs.rows := subs.rows[existing.value := Refreshed(subs.rows[existing.value], s, priceId, ids)];
    } else {
      subs.rows := subs.rows + [Refreshed(Created(user.id, s, now), s, priceId, ids)];
    }
    users.rows := users.rows[k := user.(subscriptionTier := Some(UserTierOf(tier)))];
  }

  // ---------------------------------------------------------------------
  // Webhook handlers (billing.service.ts:170-221, 264-326)
  // ---------------------------------------------------------------------

  /** The fields of a Checkout session the handler reads: the `userId` of
      its metadata, its customer, its mode and its subscription. */
  datatype CheckoutSession = CheckoutSession(userId: Option<string>, customer: Option<string>, mode: string,
                                             subscription: Option<string>)

  /** `handleCheckoutSessionCompleted`, with `retrieve` standing for
      Stripe's `subscriptions.retrieve`. */
  function Checkout(t: Tables, session: CheckoutSession, retrieve: string -> StripeSubscription, ids: PriceIds,
                    now: int): Tables
  {
    if !Present(session.userId) || !Present(session.customer) then t
    else match Find(t.users, (u: User) => u.id == session.userId.value)
      case None => t
      case Some(k) =>
        var linked := t.(users := t.users[k := t.users[k].(stripeCustomerId := session.customer)]);
        if session.mode != "subscription" || !Present(session.subscription) then linked
        else Upsert(linked, k, retrieve(session.subscription.value), ids, now)
  }

  /** A completed Checkout that is not for a subscription only records the
      customer id on the session's user. */
  lemma CheckoutOutsideSubscriptionMode(t: Tables, session: CheckoutSession, retrieve: string -> StripeSubscription,
                                        ids: PriceIds, now: int)
    requires session.mode != "subscription"
    ensures var r := Checkout(t, session, retrieve, ids, now);
      && r.subs == t.subs && |r.users| == |t.users|
      && forall j :: 0 <= j < |t.users| ==>
           r.users[j] == t.users[j] || (Present(session.customer) && Present(session.userId)
             && t.users[j].id == session.userId.value
             && r.users[j] == t.users[j].(stripeCustomerId := session.customer))
  {
  }

  /** `handleSubscriptionChanged`: the first user whose Stripe customer is
      the subscription's gets the upsert; an unknown customer changes
      nothing. */
  function SubscriptionChanged(t: Tables, s: StripeSubscription, ids: PriceIds, now: int): Tables {
    match Find(t.users, (u: User) => u.stripeCustomerId == Some(s.customer))
    case None => t
    case Some(k) => Upsert(t, k, s, ids, now)
  }

  /** The object Stripe attaches to an event. */
  datatype StripeObject =
    | SessionObject(session: CheckoutSession)
    | SubscriptionObject(subscription: StripeSubscription)
    | OtherObject

  datatype Event = Event(kind: string, data: StripeObject)

  const CheckoutCompleted := "checkout.session.completed"
  const SubscriptionEvents: set<string> :=
    {"customer.subscription.created", "customer.subscription.updated", "customer.subscription.deleted"}

  /** Stripe sends a session with a Checkout event and a subscription with a
      subscription event. */
  predicate WellTyped(e: Event) {
    (e.kind == CheckoutCompleted ==> e.data.SessionObject?)
    && (e.kind in SubscriptionEvents ==> e.data.SubscriptionObject?)
  }

  /** The `switch` on the event type; other event types change nothing. */
  function Dispatch(t: Tables, e: Event, retrieve: string -> StripeSubscription, ids: PriceIds, now: int): Tables
    requires WellTyped(e)
  {
    if e.kind == CheckoutCompleted then Checkout(t, e.data.session, retrieve, ids, now)
    else if e.kind in SubscriptionEvents then SubscriptionChanged(t, e.data.subscription, ids, now)
    else t
  }

  const SecretMessage := "STRIPE_WEBHOOK_SECRET is not set"
  const SignatureMessage := "Invalid signature"

  method HandleCheckoutSessionCompleted(users: Table<User>, subs: Table<Subscription>, session: CheckoutSession,
                                        retrieve: string -> StripeSubscription, ids: PriceIds, now: int)
    modifies users, subs
    ensures Tables(users.rows, subs.rows) == Checkout(old(Tables(users.rows, subs.rows)), session, retrieve, ids, now)
  {
    if !Present(session.userId) || !Present(session.customer) {
      return;
    }
    var found := Find(users.rows, (u: User) => u.id == session.userId.value);
    if found.None? {
      return;
    }
    var k := found.value;
    users.rows := users.rows[k := users.rows[k].(stripeCustomerId := session.customer)];
    if session.mode == "subscription" {
      if !Present(session.subscription) {
        return;
      }
      var s := retrieve(session.subscription.value);
      UpsertFromStripeSubscription(users, subs, k, s, ids, now);
    }
  }

  method HandleSubscriptionChanged(users: Table<User>, subs: Table<Subscription>, s: StripeSubscription,
                                   ids: PriceIds, now: int)
    modifies users, subs
    ensures Tables(users.rows, subs.rows) == SubscriptionChanged(old(Tables(users.rows, subs.rows)), s, ids, now)
  {
    var found := Find(users.rows, (u: User) => u.stripeCustomerId == Some(s.customer));
    if found.Some? {
      UpsertFromStripeSubscription(users, subs, found.value, s, ids, now);
    }
  }

  /** `handleStripeWebhook`: `event` is what `constructEvent` returns, or
      `None` when the signature does not verify; a missing secret or a bad
      signature fails before anything is written. */
  method HandleStripeWebhook(users: Table<User>, subs: Table<Subscription>, secret: Option<string>,
                             event: Option<Event>, retrieve: string -> StripeSubscription, ids: PriceIds, now: int)
    returns (r: Result<()>)
    requires event.Some? ==> WellTyped(event.value)
    modifies users, subs
    ensures !Present(secret) ==> r == Failure(SecretMessage)
    ensures Present(secret) && event.None? ==> r == Failure(SignatureMessage)
    ensures r.Failure? ==> unchanged(users, subs)
    ensures r.Success? <==> Present(secret) && event.Some?
    ensures r.Success? ==>
      Tables(users.rows, subs.rows) == Dispatch(old(Tables(users.rows, subs.rows)), event.value, retrieve, ids, now)
  {
    if !Present(secret) {
      return Failure(SecretMessage);
    }
    if event.None? {
      return Failure(SignatureMessage);
    }
    var e := event.value;
    if e.kind == CheckoutCompleted {
      HandleCheckoutSessionCompleted(users, subs, e.data.session, retrieve, ids, now);
    } else if e.kind in SubscriptionEvents {
      HandleSubscriptionChanged(users, subs, e.data.subscription, ids, now);
    }
    return Success(());
  }

  // ---------------------------------------------------------------------
  // Summary (billing.service.ts:223-262)
  // ---------------------------------------------------------------------

  datatype Summary = Summary(tier: BillingTier, status: SubStatus, currentPeriodEnd: Option<int>,
                             stripeCustomerId: Option<string>, stripeSubscriptionId: Option<string>)

  /** What a user without any subscription row sees. */
  const NoSubscription := Summary(Free, Inactive, None, None, None)

  function SummaryOf(r: Subscription): Summary {
    Summary(r.tier, r.status, r.currentPeriodEnd, r.stripeCustomerId, r.stripeSubscriptionId)
  }

  /** `a` comes no later than `b` in `ORDER BY start_date DESC`, where a
      null start date sorts first. */
  predicate NoLaterThan(a: Subscription, b: Subscription) {
    a.startDate.None? || (b.startDate.Some? && a.startDate.value >= b.startDate.value)
  }

  /** Row `k` is a first row of the user's subscriptions by start date,
      descending. */
  predicate LatestFor(rows: seq<Subscription>, k: nat, userId: string) {
    k < |rows| && rows[k].userId == userId
    && forall j :: 0 <= j < |rows| && rows[j].userId == userId ==> NoLaterThan(rows[k], rows[j])
  }

  ghost predicate HasSubscription(rows: seq<Subscription>, userId: string) {
    exists i :: 0 <= i < |rows| && rows[i].userId == userId
  }

  /** The summary is taken from a row the ordered query may return. */
  ghost predicate SummaryOfLatest(rows: seq<Subscription>, userId: string, r: Summary) {
    exists k: nat :: LatestFor(rows, k, userId) && r == SummaryOf(rows[k])
  }

  /** `getMySubscriptionSummary`: the free, inactive summary for a user
      without subscriptions, otherwise the latest subscription's fields. */
  method GetMySubscriptionSummary(subs: Table<Subscription>, userId: string) returns (r: Summary)
    ensures !HasSubscription(subs.rows, userId) ==> r == NoSubscription
    ensures HasSubscription(subs.rows, userId) ==> SummaryOfLatest(subs.rows, userId, r)
  {
    var rows := subs.rows;
    var best: Option<nat> := None;
    for i := 0 to |rows|
      invariant best.None? ==> forall j :: 0 <= j < i ==> rows[j].userId != userId
      invariant best.Some? ==> best.value < i && rows[best.value].userId == userId
      invariant best.Some? ==>
        forall j :: 0 <= j < i && rows[j].userId == userId ==> NoLaterThan(rows[best.value], rows[j])
    {
      if rows[i].userId == userId && (best.None? || !NoLaterThan(rows[best.value], rows[i])) {
        best := Some(i);
      }
    }
    if best.None? {
      return NoSubscription;
    }
    assert LatestFor(rows, best.value, userId);
    r := SummaryOf(rows[best.value]);
  }
}
