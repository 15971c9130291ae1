/** The administrator's plan override (backend/scripts/set-user-plan.ts):
    the command line picks a user by e-mail and a tier, the user's coarse
    tier is set, and for a paid tier the user's newest subscription row is
    made active on that tier, or one is created.  The clock is `now`. */
module SetUserPlan {
  import opened Strings
  import opened Plan
  import opened Store
  import opened Billing

  /** What `parseArgs` returns. */
  datatype Selection = Selection(email: string, userTier: UserTier, billingTier: BillingTier)

  /** The keys of `tierMap`, in the order the error message lists them. */
  const TierNames: seq<string> :=
    ["business", "business_monthly", "business_yearly", "pro", "pro_monthly", "pro_yearly", "free"]

  /** The entry of `tierMap` under one of its seven own keys; any other
      name has none. `TierLookupAsWritten` is the lookup as JavaScript
      evaluates it. */
  function TierFor(name: string): (r: Option<(UserTier, BillingTier)>)
    ensures r.Some? <==> name in TierNames
  {
    if name == "business" then Some((BusinessTier, BusinessMonthly))
    else if name == "business_monthly" then Some((BusinessTier, BusinessMonthly))
    else if name == "business_yearly" then Some((BusinessTier, BusinessYearly))
    else if name == "pro" then Some((ProTier, ProMonthly))
    else if name == "pro_monthly" then Some((ProTier, ProMonthly))
    else if name == "pro_yearly" then Some((ProTier, ProYearly))
    else if name == "free" then Some((FreeTier, Free))
    else None
  }

  /** Every entry pairs a billing tier with the user tier the billing
      service derives from it, and every billing tier is reachable under
      its own key. */
  lemma TierTableConsistent(name: string, t: BillingTier)
    ensures TierFor(name).Some? ==> TierFor(name).value.0 == UserTierOf(TierFor(name).value.1)
    ensures TierFor(TierKey(t)) == Some((UserTierOf(t), t))
  {
  }

  /** The two aliases name the monthly tiers. */
  lemma AliasesAreMonthly()
    ensures TierFor("business") == TierFor("business_monthly")
    ensures TierFor("pro") == TierFor("pro_monthly")
  {
  }

  const UsageMessage := "Usage: ts-node scripts/set-user-plan.ts <email> [tier]"

  function UnknownTierMessage(name: string): string {
    "Unknown tier \"" + name + "\". Use one of: " + Join(TierNames, ", ")
  }

  /** `parseArgs` over the arguments after the script name: a missing or
      empty e-mail is a usage error; the tier defaults to
      `business_monthly` and is lower-cased, as is the e-mail (which is not
      trimmed); an unknown tier is an error. */
  function ParseArgs(args: seq<string>): (r: Result<Selection>)
    ensures (|args| == 0 || args[0] == "") ==> r == Failure(UsageMessage)
    ensures |args| > 0 && args[0] != "" ==>
      var name := Lower(if |args| > 1 && args[1] != "" then args[1] else "business_monthly");
      && (TierFor(name).None? ==> r == Failure(UnknownTierMessage(name)))
      && (TierFor(name).Some? ==>
            r == Success(Selection(Lower(args[0]), TierFor(name).value.0, TierFor(name).value.1)))
  {
    var tierArg := Lower(if |args| > 1 && args[1] != "" then args[1] else "business_monthly");
    if |args| == 0 || args[0] == "" then Failure(UsageMessage)
    else match TierFor(tierArg)
      case None => Failure(UnknownTierMessage(tierArg))
      case Some(sel) => Success(Selection(Lower(args[0]), sel.0, sel.1))
  }

  // The lookup as JavaScript performs it. `tierMap` is a plain object
  // literal, so indexing it also finds members inherited from
  // `Object.prototype`; the two of those whose names are already lower-case
  // pass the `!selection` guard, and spreading them yields neither field.

  /** The inherited member names a lower-cased tier argument can hit. */
  const InheritedNames: seq<string> := ["constructor", "__proto__"]

  /** `tierMap[name]` as evaluated: an own key gives its entry; an inherited
      name gives a truthy value whose spread has no `userTier` and no
      `billingTier` (`None` for each); any other name is undefined. */
  function TierLookupAsWritten(name: string): (r: Option<(Option<UserTier>, Option<BillingTier>)>)
    ensures r.Some? <==> name in TierNames || name in InheritedNames
    ensures name in InheritedNames ==> r == Some((None, None))
    ensures TierFor(name).Some? ==> r == Some((Some(TierFor(name).value.0), Some(TierFor(name).value.1)))
  {
    if TierFor(name).Some? then Some((Some(TierFor(name).value.0), Some(TierFor(name).value.1)))
    else if name in InheritedNames then Some((None, None))
    else None
  }

  /** `parseArgs`'s result as evaluated, where a tier may be undefined. */
  datatype SelectionAsWritten = SelectionAsWritten(email: string, userTier: Option<UserTier>, billingTier: Option<BillingTier>)

  /** `parseArgs` as written, with the lookup above. */
  function ParseArgsAsWritten(args: seq<string>): (r: Result<SelectionAsWritten>)
    ensures (|args| == 0 || args[0] == "") ==> r == Failure(UsageMessage)
    ensures |args| > 0 && args[0] != "" ==>
      var name := Lower(if |args| > 1 && args[1] != "" then args[1] else "business_monthly");
      && (r.Success? <==> name in TierNames || name in InheritedNames)
      && (r.Failure? ==> r == Failure(UnknownTierMessage(name)))
      && (r.Success? ==> r.value == SelectionAsWritten(Lower(args[0]), TierLookupAsWritten(name).value.0,
                                                        TierLookupAsWritten(name).value.1))
  {
    var tierArg := Lower(if |args| > 1 && args[1] != "" then args[1] else "business_monthly");
    if |args| == 0 || args[0] == "" then Failure(UsageMessage)
    else match TierLookupAsWritten(tierArg)
      case None => Failure(UnknownTierMessage(tierArg))
      case Some(sel) => Success(SelectionAsWritten(Lower(args[0]), sel.0, sel.1))
  }

  /** "constructor" is already lower-case. */
  lemma ConstructorLowered()
    ensures Lower("constructor") == "constructor"
  {
    var name := "constructor";
    assert forall c :: c in name ==> 'a' <= c <= 'z';
    LowerOfLower(name);
  }

  /** "constructor" is an inherited name and none of the seven keys. */
  lemma ConstructorIsInherited()
    ensures "constructor" !in TierNames && "constructor" in InheritedNames
  {
    var name := "constructor";
    assert forall k :: 0 <= k < |TierNames| ==> TierNames[k][0] != name[0];
  }

  /** The tier argument "constructor" gets past the guard as written, with
      no tier at all. */
  lemma InheritedTierNameAccepted(email: string)
    requires email != ""
    ensures ParseArgsAsWritten([email, "constructor"]) == Success(SelectionAsWritten(Lower(email), None, None))
  {
    ConstructorLowered();
    ConstructorIsInherited();
    var args := [email, "constructor"];
    assert args[1] == "constructor" && args[0] == email;
  }

  /** The default tier name is already lower-case. */
  lemma DefaultNameLowered()
    ensures Lower("business_monthly") == "business_monthly"
  {
    var name := "business_monthly";
    assert forall c :: c in name ==> 'a' <= c <= 'z' || c == '_';
    LowerOfLower(name);
  }

  /** With no tier argument the user gets the monthly business plan. */
  lemma DefaultTierIsBusinessMonthly(email: string)
    requires email != ""
    ensures ParseArgs([email]) == Success(Selection(Lower(email), BusinessTier, BusinessMonthly))
  {
    DefaultNameLowered();
    DefaultTierEntry();
  }

  lemma DefaultTierEntry()
    ensures TierFor("business_monthly") == Some((BusinessTier, BusinessMonthly))
  {
  }

  /** A parsed selection is always consistent. */
  lemma ParseArgsConsistent(args: seq<string>)
    ensures ParseArgs(args).Success? ==> ParseArgs(args).value.userTier == UserTierOf(ParseArgs(args).value.billingTier)
  {
    var name := Lower(if |args| > 1 && args[1] != "" then args[1] else "business_monthly");
    TierTableConsistent(name, Free);
  }

  /** The row `findOne` ordered by `created_at DESC` returns: the user's
      newest row, the earliest of equally new ones. */
  function NewestFor(rows: seq<Subscription>, userId: string): (r: Option<nat>)
    ensures r.None? <==> forall i :: 0 <= i < |rows| ==> rows[i].userId != userId
    ensures r.Some? ==> r.value < |rows| && rows[r.value].userId == userId
    ensures r.Some? ==> forall i :: 0 <= i < |rows| && rows[i].userId == userId ==>
      rows[i].createdAt <= rows[r.value].createdAt
    decreases |rows|
  {
    if rows == [] then None
    else
      var rest := NewestFor(rows[..|rows| - 1], userId);
      var last := |rows| - 1;
      if rows[last].userId != userId then rest
      else if rest.None? || rows[last].createdAt > rows[rest.value].createdAt then Some(last)
      else rest
  }

  /** Which row is newest depends only on owners and creation times. */
  lemma {:induction false} NewestForSameKeys(a: seq<Subscription>, b: seq<Subscription>, userId: string)
    requires |a| == |b|
    requires forall i :: 0 <= i < |a| ==> a[i].userId == b[i].userId && a[i].createdAt == b[i].createdAt
    ensures NewestFor(a, userId) == NewestFor(b, userId)
    decreases |a|
  {
    if a != [] {
      NewestForSameKeys(a[..|a| - 1], b[..|b| - 1], userId);
    }
  }

  /** The row `run` creates for a paid tier. */
  function CreatedSubscription(userId: string, tier: BillingTier, now: int): Subscription {
    Subscription(userId, None, None, None, tier, Active, None, Some(now), now)
  }

  /** `existing` made active on `tier`, keeping a start date it has. */
  function Activated(s: Subscription, tier: BillingTier, now: int): (r: Subscription)
    ensures r.tier == tier && r.status == Active && r.startDate.Some?
    ensures s.startDate.Some? ==> r.startDate == s.startDate
    ensures r.(tier := s.tier, status := s.status, startDate := s.startDate) == s
  {
    s.(tier := tier, status := Active, startDate := Coalesce(s.startDate, Some(now)))
  }

  /** The subscriptions after `run` for the user `userId`. */
  function SetSubs(subs: seq<Subscription>, userId: string, tier: BillingTier, now: int): seq<Subscription> {
    if tier == Free then subs
    else match NewestFor(subs, userId)
      case Some(j) => subs[j := Activated(subs[j], tier, now)]
      case None => subs + [CreatedSubscription(userId, tier, now)]
  }

  /** `run` once the user is found at row `k`. */
  function SetPlan(t: Tables, k: nat, sel: Selection, now: int): Tables
    requires k < |t.users|
  {
    Tables(t.users[k := t.users[k].(subscriptionTier := Some(sel.userTier))],
           SetSubs(t.subs, t.users[k].id, sel.billingTier, now))
  }

  /** After `run` with a paid tier, the row the newest-first query returns
      is active on that tier; with `free`, the subscriptions are left
      alone. */
  lemma SetSubsNewestActive(subs: seq<Subscription>, userId: string, tier: BillingTier, now: int)
    ensures tier == Free ==> SetSubs(subs, userId, tier, now) == subs
    ensures tier != Free ==>
      var after := SetSubs(subs, userId, tier, now);
      && NewestFor(after, userId).Some?
      && after[NewestFor(after, userId).value].tier == tier
      && after[NewestFor(after, userId).value].status == Active
  {
    if tier != Free {
      var after := SetSubs(subs, userId, tier, now);
      match NewestFor(subs, userId)
      case Some(j) =>
        NewestForSameKeys(subs, after, userId);
      case None =>
        assert after[..|after| - 1] == subs;
    }
  }

  /** Rows of other users are never touched. */
  lemma SetSubsOthersUnchanged(subs: seq<Subscription>, userId: string, tier: BillingTier, now: int)
    ensures var after := SetSubs(subs, userId, tier, now);
      |after| >= |subs| && forall i :: 0 <= i < |subs| && subs[i].userId != userId ==> after[i] == subs[i]
  {
  }

  /** Running the script twice with the same arguments at the same time
      changes nothing the second time. */
  lemma {:induction false} SetSubsIdempotent(subs: seq<Subscription>, userId: string, tier: BillingTier, now: int)
    ensures SetSubs(SetSubs(subs, userId, tier, now), userId, tier, now) == SetSubs(subs, userId, tier, now)
  {
    if tier != Free {
      var once := SetSubs(subs, userId, tier, now);
      match NewestFor(subs, userId)
      case Some(j) =>
        var a := Activated(subs[j], tier, now);
        assert once == subs[j := a];
        NewestForSameKeys(subs, once, userId);
        assert Activated(a, tier, now) == a;
        assert once[j := a] == once;
      case None =>
        var c := CreatedSubscription(userId, tier, now);
        assert once == subs + [c];
        assert once[..|once| - 1] == subs;
        assert NewestFor(once, userId) == Some(|subs|);
        assert Activated(c, tier, now) == c;
        assert once[|subs| := c] == once;
    }
  }

  /** `run`: an unknown user is an error with nothing written; otherwise
      the tables become `SetPlan`'s. */
  method Run(users: Table<User>, subs: Table<Subscription>, sel: Selection, now: int) returns (r: Result<()>)
    modifies users, subs
    ensures var k := Find(old(users.rows), (u: User) => u.email == sel.email);
      && (k.None? ==> r == Failure("User not found: " + sel.email) && unchanged(users, subs))
      && (k.Some? ==>
            && r.Success?
            && Tables(users.rows, subs.rows) == SetPlan(old(Tables(users.rows, subs.rows)), k.value, sel, now))
  {
    var k := Find(users.rows, (u: User) => u.email == sel.email);
    if k.None? {
      return Failure("User not found: " + sel.email);
    }
    var user := users.rows[k.value].(subscriptionTier := Some(sel.userTier));
    users.rows := users.rows[k.value := user];
    if sel.billingTier != Free {
      var existing := NewestFor(subs.rows, user.id);
      if existing.Some? {
        var j := existing.value;
        subs.rows := subs.rows[j := Activated(subs.rows[j], sel.billingTier, now)];
      } else {
        subs.rows := subs.rows + [CreatedSubscription(user.id, sel.billingTier, now)];
      }
    }
    r := Success(());
  }
}
