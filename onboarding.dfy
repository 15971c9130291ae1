/** Onboarding (backend/src/onboarding/onboarding.service.ts): the status a
    client reads, and completing onboarding, which fills in the profile,
    records the acknowledgements and makes sure the user has a tier and a
    subscription row.  The clock is the `now` input. */
module Onboarding {
  import opened Strings
  import opened Plan
  import opened Store

  const UserNotFoundMessage := "User not found"

  /** What `getStatus` returns. */
  datatype Status = Status(onboardingCompleted: bool, primaryJurisdiction: Option<string>,
                           categories: Option<seq<string>>, intendedUsage: Option<string>)

  /** `getStatus`: the four onboarding columns of the user. */
  method GetStatus(users: Table<User>, userId: string) returns (r: Result<Status>)
    ensures var k := Find(users.rows, (u: User) => u.id == userId);
      && (k.None? ==> r == Failure(UserNotFoundMessage))
      && (k.Some? ==> var u := users.rows[k.value];
            && r.Success?
            && r.value.onboardingCompleted == u.onboardingCompleted
            && r.value.primaryJurisdiction == u.primaryJurisdiction
            && r.value.categories == u.categories
            && r.value.intendedUsage == u.intendedUsage)
  {
    var k := Find(users.rows, (u: User) => u.id == userId);
    if k.None? {
      return Failure(UserNotFoundMessage);
    }
    var u := users.rows[k.value];
    r := Success(Status(u.onboardingCompleted, u.primaryJurisdiction, u.categories, u.intendedUsage));
  }

  /** `CompleteOnboardingDto`; an omitted field is `None`. */
  datatype CompleteRequest = CompleteRequest(
    fullName: Option<string>,
    companyName: Option<string>,
    abnAcn: Option<string>,
    companyAddress: Option<string>,
    industry: Option<string>,
    primaryJurisdiction: Option<string>,
    categories: Option<seq<string>>,
    intendedUsage: Option<string>,
    acceptedTerms: bool,
    acceptedDisclaimer: bool)

  /** The user as `complete` saves it at time `now`. */
  function Completed(u: User, dto: CompleteRequest, now: int): (v: User)
    // the name and company are kept when omitted
    ensures v.fullName == (if dto.fullName.Some? then dto.fullName else u.fullName)
    ensures v.companyName == (if dto.companyName.Some? then dto.companyName else u.companyName)
    // the other three business columns are cleared when omitted
    ensures v.abnAcn == dto.abnAcn && v.companyAddress == dto.companyAddress && v.industry == dto.industry
    ensures v.primaryJurisdiction == dto.primaryJurisdiction && v.intendedUsage == dto.intendedUsage
    ensures v.categories == Some(if dto.categories.Some? then dto.categories.value else [])
    ensures v.onboardingCompleted
    // an acknowledgement is stamped only when given
    ensures v.termsAcceptedAt == if dto.acceptedTerms then Some(now) else u.termsAcceptedAt
    ensures v.disclaimerAckAt == if dto.acceptedDisclaimer then Some(now) else u.disclaimerAckAt
    // a missing tier becomes free, an existing one stays
    ensures v.subscriptionTier == if u.subscriptionTier.None? then Some(FreeTier) else u.subscriptionTier
    // nothing else changes
    ensures v.id == u.id && v.email == u.email && v.passwordHash == u.passwordHash && v.role == u.role
    ensures v.stripeCustomerId == u.stripeCustomerId
    ensures v.resetTokenHash == u.resetTokenHash && v.resetTokenExpiresAt == u.resetTokenExpiresAt
  {
    u.(fullName := Coalesce(dto.fullName, u.fullName),
       companyName := Coalesce(dto.companyName, u.companyName),
       abnAcn := Coalesce(dto.abnAcn, None),
       companyAddress := Coalesce(dto.companyAddress, None),
       industry := Coalesce(dto.industry, None),
       primaryJurisdiction := dto.primaryJurisdiction,
       categories := Coalesce(dto.categories, Some([])),
       intendedUsage := dto.intendedUsage,
       onboardingCompleted := true,
       termsAcceptedAt := if dto.acceptedTerms then Some(now) else u.termsAcceptedAt,
       disclaimerAckAt := if dto.acceptedDisclaimer then Some(now) else u.disclaimerAckAt,
       subscriptionTier := if u.subscriptionTier.None? then Some(FreeTier) else u.subscriptionTier)
  }

  /** Completing again with the same answers at the same time changes
      nothing more. */
  lemma CompletedIdempotent(u: User, dto: CompleteRequest, now: int)
    ensures Completed(Completed(u, dto, now), dto, now) == Completed(u, dto, now)
  {
  }

  /** The free subscription row `complete` creates. */
  function FreeSubscription(userId: string, now: int): Subscription {
    Subscription(userId, None, None, None, Free, Active, None, Some(now), now)
  }

  function SubsOf(subs: seq<Subscription>, userId: string): seq<Subscription> {
    Filter(subs, (s: Subscription) => s.userId == userId)
  }

  /** `complete` for the user at row `k`: the user is completed, and a free
      subscription is added when the user has none. */
  function Complete(t: Tables, k: nat, dto: CompleteRequest, now: int): Tables
    requires k < |t.users|
  {
    var u := t.users[k];
    var existing := Find(t.subs, (s: Subscription) => s.userId == u.id);
    Tables(t.users[k := Completed(u, dto, now)],
           if existing.None? then t.subs + [FreeSubscription(u.id, now)] else t.subs)
  }

  /** After `complete` the user has a subscription: the ones it had, or
      else exactly the new free one. */
  lemma {:induction false} CompleteSubscriptions(t: Tables, k: nat, dto: CompleteRequest, now: int)
    requires k < |t.users|
    ensures var id := t.users[k].id;
      SubsOf(Complete(t, k, dto, now).subs, id)
        == if SubsOf(t.subs, id) == [] then [FreeSubscription(id, now)] else SubsOf(t.subs, id)
  {
    var id := t.users[k].id;
    var p := (s: Subscription) => s.userId == id;
    var existing := Find(t.subs, p);
    if existing.None? {
      FilterAppend(t.subs, FreeSubscription(id, now), p);
    } else {
      assert t.subs[existing.value] in SubsOf(t.subs, id);
    }
  }

  /** However often onboarding is completed, at most one subscription is
      created: a second call adds none. */
  lemma CompleteTwiceCreatesOne(t: Tables, k: nat, dto: CompleteRequest, dto2: CompleteRequest, now: int,
                                later: int)
    requires k < |t.users|
    ensures var once := Complete(t, k, dto, now);
      Complete(once, k, dto2, later).subs == once.subs
  {
    var once := Complete(t, k, dto, now);
    var id := t.users[k].id;
    assert once.users[k].id == id;
    CompleteSubscriptions(t, k, dto, now);
    var s := SubsOf(once.subs, id)[0];
    assert s in once.subs && s.userId == id;
  }

  /** `complete`: an unknown user fails with nothing written. */
  method CompleteOnboarding(users: Table<User>, subs: Table<Subscription>, userId: string, dto: CompleteRequest,
                            now: int)
    returns (r: Result<()>)
    modifies users, subs
    ensures var k := Find(old(users.rows), (u: User) => u.id == userId);
      && (k.None? ==> r.Failure? && r.error == UserNotFoundMessage && unchanged(users, subs))
      && (k.Some? ==>
            && r.Success?
            && Tables(users.rows, subs.rows) == Complete(old(Tables(users.rows, subs.rows)), k.value, dto, now))
  {
    var k := Find(users.rows, (u: User) => u.id == userId);
    if k.None? {
      return Failure(UserNotFoundMessage);
    }
    var user := Completed(users.rows[k.value], dto, now);
    users.rows := users.rows[k.value := user];
    var existing := Find(subs.rows, (s: Subscription) => s.userId == user.id);
    if existing.None? {
      subs.rows := subs.rows + [FreeSubscription(user.id, now)];
    }
    r := Success(());
  }
}
