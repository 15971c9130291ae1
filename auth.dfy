/** Password accounts (backend/src/auth/auth.service.ts): sign-up, login,
    the `me` projection and the reset-code lifecycle over the `users`
    table.  bcrypt, SHA-256, JWT signing, the mailer, `Math.random` and the
    clock are inputs: a hash the caller computed, a hash function, the
    random draw and the current time. */
module Auth {
  import opened Strings
  import opened Store

  // ---------------------------------------------------------------------
  // E-mail addresses
  // ---------------------------------------------------------------------

  /** `email.toLowerCase().trim()`, the key every operation looks users up
      by. */
  function NormalizeEmail(email: string): (r: string)
    ensures forall i :: 0 <= i < |r| ==> !IsUpper(r[i])
    ensures r == [] || (!IsSpace(r[0]) && !IsSpace(r[|r| - 1]))
  {
    var lowered := Lower(email);
    TrimChars(lowered);
    Trim(lowered)
  }

  /** The key is the lower-cased address with the white space at its two
      ends removed, and nothing else changed. */
  lemma NormalizeEmailIsTrimmedLower(email: string) returns (i: nat, j: nat)
    ensures i <= j <= |email| && NormalizeEmail(email) == Lower(email)[i..j]
    ensures forall k :: 0 <= k < i ==> IsSpace(email[k])
    ensures forall k :: j <= k < |email| ==> IsSpace(email[k])
  {
    i, j := TrimSlice(Lower(email));
    assert forall k :: 0 <= k < |email| && IsSpace(Lower(email)[k]) ==> IsSpace(email[k]);
  }

  /** Trimming keeps only characters of the input. */
  lemma {:induction false} TrimChars(s: string)
    ensures forall i :: 0 <= i < |Trim(s)| ==> Trim(s)[i] in s
    decreases |s|
  {
    if s != [] && IsSpace(s[0]) {
      TrimChars(s[1..]);
    } else if s != [] && IsSpace(s[|s| - 1]) {
      TrimChars(s[..|s| - 1]);
    }
  }

  /** Normalizing a normalized address changes nothing. */
  lemma NormalizeEmailIdempotent(email: string)
    ensures NormalizeEmail(NormalizeEmail(email)) == NormalizeEmail(email)
  {
    var n := NormalizeEmail(email);
    assert Lower(n) == n;
    TrimIdempotent(Lower(email));
  }

  predicate HasEmail(u: User, email: string) {
    u.email == email
  }

  /** No two users share an address (the column is unique). */
  predicate EmailsDistinct(rows: seq<User>) {
    forall i, j :: 0 <= i < j < |rows| ==> rows[i].email != rows[j].email
  }

  // ---------------------------------------------------------------------
  // Sign-up and login (auth.service.ts:42-81)
  // ---------------------------------------------------------------------

  /** The payload of the signed access token. */
  datatype Claims = Claims(sub: string, email: string)

  datatype SignUpRequest = SignUpRequest(email: string, password: string, fullName: Option<string>,
                                         companyName: Option<string>)

  const ConflictMessage := "Email already registered"
  const InvalidCredentials := "Invalid credentials"
  const NoPasswordMessage := "Password login not enabled for this account"

  /** The row `usersRepo.create` makes at sign-up; every other column takes
      its default. */
  function NewUser(id: string, email: string, passwordHash: string, dto: SignUpRequest): User {
    User(id, email, Some(passwordHash), dto.fullName, dto.companyName, None, None, None, None, None, None,
         false, None, None, UserRole, Some(FreeTier), None, None, None)
  }

  /** `signup`: `freshId` is the generated key and `passwordHash` bcrypt's
      hash of `dto.password`.  An address already registered fails with
      nothing written; otherwise one user is added, under the normalized
      address. */
  method Signup(users: Table<User>, dto: SignUpRequest, freshId: string, passwordHash: string)
    returns (r: Result<Claims>)
    modifies users
    ensures var email := NormalizeEmail(dto.email);
      r == Failure(ConflictMessage) <==> exists i :: 0 <= i < |old(users.rows)| && old(users.rows)[i].email == email
    ensures r.Failure? ==> unchanged(users)
    ensures r.Success? ==> var email := NormalizeEmail(dto.email);
      users.rows == old(users.rows) + [NewUser(freshId, email, passwordHash, dto)] && r.value == Claims(freshId, email)
    ensures EmailsDistinct(old(users.rows)) ==> EmailsDistinct(users.rows)
  {
    var email := NormalizeEmail(dto.email);
    var exists_ := Find(users.rows, (u: User) => HasEmail(u, email));
    if exists_.Some? {
      return Failure(ConflictMessage);
    }
    users.rows := users.rows + [NewUser(freshId, email, passwordHash, dto)];
    r := Success(Claims(freshId, email));
  }

  /** `login`: `matches` stands for `bcrypt.compare`.  An unknown address
      or a wrong password is "Invalid credentials", an account without a
      password cannot log in, and success yields the user's claims. */
  method Login(users: Table<User>, email: string, password: string, matches: (string, string) -> bool)
    returns (r: Result<Claims>)
    ensures var found := Find(users.rows, (u: User) => HasEmail(u, NormalizeEmail(email)));
      && (found.None? ==> r == Failure(InvalidCredentials))
      && (found.Some? && !Present(users.rows[found.value].passwordHash) ==> r == Failure(NoPasswordMessage))
      && (found.Some? && Present(users.rows[found.value].passwordHash) ==>
            var u := users.rows[found.value];
            r == if matches(password, u.passwordHash.value) then Success(Claims(u.id, u.email))
                 else Failure(InvalidCredentials))
  {
    var found := Find(users.rows, (u: User) => HasEmail(u, NormalizeEmail(email)));
    if found.None? {
      return Failure(InvalidCredentials);
    }
    var u := users.rows[found.value];
    if !Present(u.passwordHash) {
      return Failure(NoPasswordMessage);
    }
    if !matches(password, u.passwordHash.value) {
      return Failure(InvalidCredentials);
    }
    r := Success(Claims(u.id, u.email));
  }

  // ---------------------------------------------------------------------
  // `me` (auth.service.ts:83-93)
  // ---------------------------------------------------------------------

  /** A user without the password hash and the two reset columns. */
  datatype SafeUser = SafeUser(
    id: string,
    email: string,
    fullName: Option<string>,
    companyName: Option<string>,
    abnAcn: Option<string>,
    companyAddress: Option<string>,
    industry: Option<string>,
    primaryJurisdiction: Option<string>,
    categories: Option<seq<string>>,
    intendedUsage: Option<string>,
    onboardingCompleted: bool,
    termsAcceptedAt: Option<int>,
    disclaimerAckAt: Option<int>,
    role: Role,
    subscriptionTier: Option<UserTier>,
    stripeCustomerId: Option<string>)

  /** The rest spread `...safe`. */
  function Safe(u: User): SafeUser {
    SafeUser(u.id, u.email, u.fullName, u.companyName, u.abnAcn, u.companyAddress, u.industry,
             u.primaryJurisdiction, u.categories, u.intendedUsage, u.onboardingCompleted, u.termsAcceptedAt,
             u.disclaimerAckAt, u.role, u.subscriptionTier, u.stripeCustomerId)
  }

  /** What `me` returns is the whole row except the secrets: two users
      look the same exactly when they differ at most in those columns. */
  lemma SafeHidesOnlySecrets(u: User, v: User)
    ensures Safe(u) == Safe(v) <==>
      u.(passwordHash := None, resetTokenHash := None, resetTokenExpiresAt := None) ==
      v.(passwordHash := None, resetTokenHash := None, resetTokenExpiresAt := None)
  {
    var u0 := u.(passwordHash := None, resetTokenHash := None, resetTokenExpiresAt := None);
    var v0 := v.(passwordHash := None, resetTokenHash := None, resetTokenExpiresAt := None);
    if u0 == v0 {
      assert u.id == u0.id == v0.id == v.id;
    }
  }

  const UnauthorizedMessage := "Unauthorized"

  /** `me`: the signed-in user's row without the secret columns. */
  method Me(users: Table<User>, userId: string) returns (r: Result<SafeUser>)
    ensures var found := Find(users.rows, (u: User) => u.id == userId);
      && (found.None? ==> r == Failure(UnauthorizedMessage))
      && (found.Some? ==> r == Success(Safe(users.rows[found.value])))
  {
    var found := Find(users.rows, (u: User) => u.id == userId);
    if found.None? {
      return Failure(UnauthorizedMessage);
    }
    r := Success(Safe(users.rows[found.value]));
  }

  // ---------------------------------------------------------------------
  // Reset codes (auth.service.ts:95-148)
  // ---------------------------------------------------------------------

  /** A code lives 15 minutes. */
  const ResetLifetime := 1000 * 60 * 15

  function Pow10(k: nat): nat {
    if k == 0 then 1 else 10 * Pow10(k - 1)
  }

  lemma {:induction false} DigitCount(n: nat, k: nat)
    requires k >= 1 && n < Pow10(k)
    ensures |NatToString(n)| <= k
    decreases k
  {
    if n >= 10 {
      DigitCount(n / 10, k - 1);
    }
  }

  /** Leading zeros do not change a number's value. */
  lemma {:induction false} LeadingZeros(z: nat, s: string)
    requires forall i :: 0 <= i < |s| ==> IsDigit(s[i])
    ensures var p := seq(z, _ => '0') + s;
      (forall i :: 0 <= i < |p| ==> IsDigit(p[i])) && DigitsValue(p) == DigitsValue(s)
    decreases |s| + z
  {
    var p := seq(z, _ => '0') + s;
    if s == [] {
      if z > 0 {
        LeadingZeros(z - 1, s);
        assert p[..|p| - 1] == seq(z - 1, _ => '0') + s;
      }
    } else {
      LeadingZeros(z, s[..|s| - 1]);
      assert p[..|p| - 1] == seq(z, _ => '0') + s[..|s| - 1];
    }
  }

  /** `Math.floor(draw).toString().padStart(6, '0')`: six digits that read
      back as the draw. */
  function ResetCode(draw: nat): (code: string)
    requires draw < 1000000
    ensures |code| == 6
    ensures forall i :: 0 <= i < 6 ==> IsDigit(code[i])
    ensures DigitsValue(code) == draw
  {
    var digits := NatToString(draw);
    DigitCount(draw, 6);
    NatToStringValue(draw);
    LeadingZeros(6 - |digits|, digits);
    assert PadStartZero(digits, 6) == seq(6 - |digits|, _ => '0') + digits;
    PadStartZero(digits, 6)
  }

  /** The reset columns `forgotPassword` writes for code `code`. */
  function Issued(u: User, code: string, now: int, sha: string -> string): User {
    u.(resetTokenHash := Some(sha(code)), resetTokenExpiresAt := Some(now + ResetLifetime))
  }

  /** `forgotPassword`: `draw` is `Math.random() * 1_000_000` rounded down,
      `sha` the hex SHA-256.  An unknown address changes nothing (and the
      answer is the same); otherwise the user's reset columns hold the hash
      of the code and its expiry, and `code` is what is mailed. */
  method ForgotPassword(users: Table<User>, email: string, draw: nat, now: int, sha: string -> string)
    returns (code: Option<string>)
    requires draw < 1000000
    modifies users
    ensures var found := Find(old(users.rows), (u: User) => HasEmail(u, NormalizeEmail(email)));
      && (found.None? ==> code.None? && unchanged(users))
      && (found.Some? ==>
            && code == Some(ResetCode(draw))
            && users.rows == old(users.rows)[found.value := Issued(old(users.rows)[found.value], code.value, now, sha)])
  {
    var found := Find(users.rows, (u: User) => HasEmail(u, NormalizeEmail(email)));
    if found.None? {
      return None;
    }
    var k := found.value;
    var rawCode := ResetCode(draw);
    users.rows := users.rows[k := Issued(users.rows[k], rawCode, now, sha)];
    code := Some(rawCode);
  }

  /** The three guards of `resetPassword` on a found user: a stored hash,
      an expiry not yet passed, and a token hashing to the stored hash. */
  predicate TokenAccepted(u: User, token: string, now: int, sha: string -> string) {
    Present(u.resetTokenHash) && u.resetTokenExpiresAt.Some? && !(u.resetTokenExpiresAt.value < now)
    && sha(token) == u.resetTokenHash.value
  }

  /** The columns a successful reset writes. */
  function Reset(u: User, passwordHash: string): User {
    u.(passwordHash := Some(passwordHash), resetTokenHash := None, resetTokenExpiresAt := None)
  }

  /** A code is accepted, until its expiry inclusive, exactly when it
      hashes like the one mailed (the hash is assumed non-empty). */
  lemma IssuedCodeWindow(u: User, code: string, token: string, now: int, later: int, sha: string -> string)
    requires sha(code) != ""
    ensures TokenAccepted(Issued(u, code, now, sha), token, later, sha)
      <==> later <= now + ResetLifetime && sha(token) == sha(code)
  {
  }

  /** After a reset no token is accepted until a new code is issued. */
  lemma ResetCodeUsedUp(u: User, passwordHash: string, token: string, later: int, sha: string -> string)
    ensures !TokenAccepted(Reset(u, passwordHash), token, later, sha)
  {
  }

  const EmailRequiredMessage := "Email is required"
  const InvalidTokenMessage := "Invalid or expired token"

  /** `resetPassword`: `passwordHash` is bcrypt's hash of the new password.
      A missing address and every failed guard fail with nothing written;
      success replaces the hash and clears both reset columns. */
  method ResetPassword(users: Table<User>, token: string, email: Option<string>, now: int,
                       sha: string -> string, passwordHash: string)
    returns (r: Result<()>)
    modifies users
    ensures !Present(email) ==> r == Failure(EmailRequiredMessage)
    ensures r.Failure? ==> unchanged(users)
    ensures Present(email) ==>
      var found := Find(old(users.rows), (u: User) => HasEmail(u, NormalizeEmail(email.value)));
      && (found.None? || !TokenAccepted(old(users.rows)[found.value], token, now, sha) ==>
            r == Failure(InvalidTokenMessage))
      && (found.Some? && TokenAccepted(old(users.rows)[found.value], token, now, sha) ==>
            && r.Success?
            && users.rows == old(users.rows)[found.value := Reset(old(users.rows)[found.value], passwordHash)])
  {
    if !Present(email) {
      return Failure(EmailRequiredMessage);
    }
    var found := Find(users.rows, (u: User) => HasEmail(u, NormalizeEmail(email.value)));
    if found.None? {
      return Failure(InvalidTokenMessage);
    }
    var k := found.value;
    var u := users.rows[k];
    if !Present(u.resetTokenHash) || u.resetTokenExpiresAt.None? {
      return Failure(InvalidTokenMessage);
    }
    if u.resetTokenExpiresAt.value < now {
      return Failure(InvalidTokenMessage);
    }
    if sha(token) != u.resetTokenHash.value {
      return Failure(InvalidTokenMessage);
    }
    users.rows := users.rows[k := Reset(u, passwordHash)];
    r := Success(());
  }
}
