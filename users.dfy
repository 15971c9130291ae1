/** Profile updates (backend/src/users/users.service.ts): a patch that
    distinguishes an omitted field from an explicit null. */
module Users {
  import opened Strings
  import opened Store

  const UserNotFoundMessage := "User not found"

  /** One field of `UpdateProfileDto`: omitted (`undefined`), or set to a
      string or to null. */
  datatype Patch = Keep | Put(value: Option<string>)

  /** Apply one field of a patch to the stored value. */
  function Apply(p: Patch, old_: Option<string>): (r: Option<string>)
    ensures p.Keep? ==> r == old_
    ensures p.Put? ==> r == p.value
  {
    match p
    case Keep => old_
    case Put(v) => v
  }

  datatype ProfilePatch = ProfilePatch(fullName: Patch, companyName: Patch, primaryJurisdiction: Patch)

  const EmptyPatch := ProfilePatch(Keep, Keep, Keep)

  /** The user `updateProfile` saves: the three profile columns follow the
      patch and every other column is as before. */
  function Updated(u: User, dto: ProfilePatch): (v: User)
    ensures v.fullName == Apply(dto.fullName, u.fullName)
    ensures v.companyName == Apply(dto.companyName, u.companyName)
    ensures v.primaryJurisdiction == Apply(dto.primaryJurisdiction, u.primaryJurisdiction)
    ensures v.(fullName := u.fullName, companyName := u.companyName, primaryJurisdiction := u.primaryJurisdiction) == u
  {
    u.(fullName := Apply(dto.fullName, u.fullName),
       companyName := Apply(dto.companyName, u.companyName),
       primaryJurisdiction := Apply(dto.primaryJurisdiction, u.primaryJurisdiction))
  }

  /** A field changes only when the patch names it. */
  lemma UpdatedChangesOnlyNamed(u: User, dto: ProfilePatch)
    ensures Updated(u, dto).fullName != u.fullName ==> dto.fullName.Put?
    ensures Updated(u, dto).companyName != u.companyName ==> dto.companyName.Put?
    ensures Updated(u, dto).primaryJurisdiction != u.primaryJurisdiction ==> dto.primaryJurisdiction.Put?
  {
  }

  /** An empty patch leaves the user as it was. */
  lemma EmptyPatchIsIdentity(u: User)
    ensures Updated(u, EmptyPatch) == u
  {
  }

  /** Sending `a` and then `b` is sending one patch in which `b` wins
      wherever it names a field. */
  function Then(a: Patch, b: Patch): Patch {
    if b.Put? then b else a
  }

  lemma UpdatesCompose(u: User, a: ProfilePatch, b: ProfilePatch)
    ensures Updated(Updated(u, a), b)
         == Updated(u, ProfilePatch(Then(a.fullName, b.fullName), Then(a.companyName, b.companyName),
                                    Then(a.primaryJurisdiction, b.primaryJurisdiction)))
  {
  }

  /** `updateProfile`: an unknown user fails with nothing written;
      otherwise the user's row is replaced by the patched one, which is
      also returned. */
  method UpdateProfile(users: Table<User>, userId: string, dto: ProfilePatch) returns (r: Result<User>)
    modifies users
    ensures var k := Find(old(users.rows), (u: User) => u.id == userId);
      && (k.None? ==> r == Failure(UserNotFoundMessage) && unchanged(users))
      && (k.Some? ==>
            && r == Success(Updated(old(users.rows)[k.value], dto))
            && users.rows == old(users.rows)[k.value := r.value])
  {
    var k := Find(users.rows, (u: User) => u.id == userId);
    if k.None? {
      return Failure(UserNotFoundMessage);
    }
    var user := users.rows[k.value];
    if dto.fullName.Put? {
      user := user.(fullName := dto.fullName.value);
    }
    if dto.companyName.Put? {
      user := user.(companyName := dto.companyName.value);
    }
    if dto.primaryJurisdiction.Put? {
      user := user.(primaryJurisdiction := dto.primaryJurisdiction.value);
    }
    users.rows := users.rows[k.value := user];
    r := Success(user);
  }
}
