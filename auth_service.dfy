/**
 * `AuthService`: login, and password reset by a signed, time-limited link. The clock reading
 * (`Date.now()`, in milliseconds), the mailer's answer and the bcrypt salt are parameters.
 */
module Auth {
  import opened Wrappers
  import opened Bcrypt
  import opened Http
  import opened Entities
  import opened Jwt
  import opened UserStore

  /** How long a reset link stays valid: `15 * 60 * 1000` milliseconds. */
  const RESET_WINDOW_MS: nat := 15 * 60 * 1000

  // ---- login ----

  /** `{ accessToken, data: { id, first_name, last_name, email, phone, role } }`. */
  datatype LoginData = LoginData(accessToken: string, user: Profile)

  /**
   * The decision `login` makes on a table. An unknown email fails before any password is
   * compared; a wrong password fails with its own message; the active flag plays no part.
   */
  function LoginDecision(users: seq<User>, email: string, password: string, now: nat): (r: Outcome<LoginData>)
    ensures var found := FindFirst(users, ByEmail(email));
      && (found.None? ==> r == Thrown(HttpError(Unauthorized, EmailCredential, UNAUTHORIZED)))
      && (found.Some? && !Matches(password, found.value.password) ==>
            r == Thrown(HttpError(Unauthorized, InvalidPasswordCredentials, UNAUTHORIZED)))
      && (r.Done? <==> found.Some? && Matches(password, found.value.password))
      && (r.Done? ==> r.reply.status == CREATED && r.reply.data.user == ProfileOf(found.value))
    ensures r.Done? ==>
      Verify(r.reply.data.accessToken) == Some(Session(email, r.reply.data.user.role, IssuedAt(now)))
  {
    match FindFirst(users, ByEmail(email))
    case None => Thrown(Rethrow(Unauthorized, EmailCredential, true, INTERNAL_SERVER_ERROR))
    case Some(u) =>
      if !Matches(password, u.password) then
        Thrown(Rethrow(Unauthorized, InvalidPasswordCredentials, true, INTERNAL_SERVER_ERROR))
      else
        var claims := Session(u.email, u.role, IssuedAt(now));
        VerifySigned(claims);
        Done(Reply(CREATED, None, LoginData(Sign(claims), ProfileOf(u))))
  }

  // ---- forgot password ----

  /** The message handed to the mailer. */
  datatype Mail = Mail(to: string, subject: string, body: string)

  /** `${req.protocol}://${req.get('host')}/auth/password-reset/${token}`. */
  function ResetLink(protocol: string, host: string, token: string): string {
    protocol + "://" + host + "/auth/password-reset/" + token
  }

  /** The reset token forgotPassword signs for a record: `{ user: id, email }`. */
  function ResetTokenFor(u: User, now: nat): string {
    Sign(PasswordReset(u.id, u.email, IssuedAt(now)))
  }

  datatype ForgotResult = ForgotResult(outcome: Outcome<()>, mail: Option<Mail>, users: seq<User>)

  /** What `forgotPassword` does to a table, given whether the mailer answered. */
  function Forgot(users: seq<User>, email: string, protocol: string, host: string, now: nat, delivered: bool): (r: ForgotResult)
    ensures FindFirst(users, ByEmail(email)).None? ==>
      r == ForgotResult(Thrown(HttpError(Unauthorized, EmailNotFound, INTERNAL_SERVER_ERROR)), None, users)
    ensures FindFirst(users, ByEmail(email)).Some? && !delivered ==>
      r.outcome == Thrown(HttpError(NotFound, EmailNotFound, INTERNAL_SERVER_ERROR))
    ensures r.outcome.Done? <==> FindFirst(users, ByEmail(email)).Some? && delivered
    ensures FindFirst(users, ByEmail(email)).Some? && delivered ==>
      r.outcome == Done(Reply(CREATED, Some(ForgotPasswordEmailSent), ()))
    ensures FindFirst(users, ByEmail(email)).Some? ==>
      r.users == UpdateWhere(users, ByEmail(email),
                             SetReset(ResetTokenFor(FindFirst(users, ByEmail(email)).value, now), now + RESET_WINDOW_MS))
    ensures |r.users| == |users|
    ensures forall i :: 0 <= i < |users| && users[i].email != email ==> r.users[i] == users[i]
  {
    match FindFirst(users, ByEmail(email))
    case None => ForgotResult(Thrown(Rethrow(Unauthorized, EmailNotFound, false, INTERNAL_SERVER_ERROR)), None, users)
    case Some(u) =>
      var token := ResetTokenFor(u, now);
      var stored := UpdateWhere(users, ByEmail(u.email), SetReset(token, now + RESET_WINDOW_MS));
      var mail := Mail(u.email, "Reset Password link", ResetLink(protocol, host, token));
      if delivered then ForgotResult(Done(Reply(CREATED, Some(ForgotPasswordEmailSent), ())), Some(mail), stored)
      else ForgotResult(Thrown(Rethrow(NotFound, EmailNotFound, false, INTERNAL_SERVER_ERROR)), Some(mail), stored)
  }

  /**
   * forgotPassword stores, on the user's record, a token that verifies to `{ user: id, email }`
   * and an expiry exactly 15 minutes after now, and mails a link that carries that token. It does
   * so whether or not the mailer answers.
   */
  lemma ForgotStoresToken(users: seq<User>, email: string, protocol: string, host: string, now: nat, delivered: bool)
    requires FindFirst(users, ByEmail(email)).Some?
    ensures var u := FindFirst(users, ByEmail(email)).value;
      var r := Forgot(users, email, protocol, host, now, delivered);
      exists token ::
        && Verify(token) == Some(PasswordReset(u.id, email, IssuedAt(now)))
        && FindFirst(r.users, ByEmail(email)) == Some(u.(resetToken := Some(token), resetExpiry := Some(now + RESET_WINDOW_MS)))
        && r.mail == Some(Mail(email, "Reset Password link", ResetLink(protocol, host, token)))
  {
    var u := FindFirst(users, ByEmail(email)).value;
    var token := ResetTokenFor(u, now);
    var stored := Forgot(users, email, protocol, host, now, delivered).users;
    VerifySigned(PasswordReset(u.id, u.email, IssuedAt(now)));
    ForgotWrites(users, email, protocol, host, now, delivered);
    var v := FindFirst(stored, ByEmail(email)).value;
    assert v.resetToken == Some(token) && v.resetExpiry == Some(now + RESET_WINDOW_MS);
    assert Verify(token).value.email == email;
  }

  /** The record forgotPassword finds afterwards: the same record with the new token and expiry. */
  lemma ForgotWrites(users: seq<User>, email: string, protocol: string, host: string, now: nat, delivered: bool)
    requires FindFirst(users, ByEmail(email)).Some?
    ensures var u := FindFirst(users, ByEmail(email)).value;
      FindFirst(Forgot(users, email, protocol, host, now, delivered).users, ByEmail(email)) ==
        Some(u.(resetToken := Some(ResetTokenFor(u, now)), resetExpiry := Some(now + RESET_WINDOW_MS)))
  {
    var u := FindFirst(users, ByEmail(email)).value;
    FindAfterUpdateByEmail(users, email, SetReset(ResetTokenFor(u, now), now + RESET_WINDOW_MS));
  }

  // ---- reset password ----

  /** `reset_password_token_expire_time >= time`; a null expiry compares as 0. */
  predicate NotExpired(expiry: Option<int>, now: nat) {
    match expiry
    case Some(e) => e >= now
    case None => 0 >= now
  }

  /** The three conditions resetPassword requires of the record the token names. */
  predicate ResetAccepted(u: User, token: string, password: string, confirm: string, now: nat) {
    u.resetToken == Some(token) && NotExpired(u.resetExpiry, now) && password == confirm
  }

  datatype Step = Step(outcome: Outcome<()>, users: seq<User>)

  const PASSWORD_UPDATED: Outcome<()> := Done(Reply(CREATED, Some(UserPasswordUpdated), ()))
  const LINK_EXPIRED: Outcome<()> := Done(Reply(NOT_ACCEPTABLE, Some(LinkExpire), ()))

  /**
   * What `resetPassword` does to a table, as written: on success it replaces the password and
   * leaves the reset token and expiry where they were.
   */
  function Reset(users: seq<User>, token: string, password: string, confirm: string, now: nat, salt: Salt): (r: Step)
    ensures Verify(token).None? ==> r == Step(Thrown(HttpError(JwtError, TokenRejected, BAD_REQUEST)), users)
    ensures Verify(token).Some? && FindFirst(users, ByEmail(Verify(token).value.email)).None? ==>
      r == Step(Thrown(HttpError(TypeError, NoUserForToken, BAD_REQUEST)), users)
    ensures (&& Verify(token).Some?
             && FindFirst(users, ByEmail(Verify(token).value.email)).Some?
             && !ResetAccepted(FindFirst(users, ByEmail(Verify(token).value.email)).value, token, password, confirm, now))
            ==> r == Step(LINK_EXPIRED, users)
    ensures r.outcome == PASSWORD_UPDATED <==>
      && Verify(token).Some?
      && var found := FindFirst(users, ByEmail(Verify(token).value.email));
         found.Some? && ResetAccepted(found.value, token, password, confirm, now)
    ensures r.outcome != PASSWORD_UPDATED ==> r.users == users
    ensures r.outcome == PASSWORD_UPDATED ==>
      r.users == UpdateWhere(users, ByEmail(Verify(token).value.email), SetPassword(Hash(password, salt)))
    ensures |r.users| == |users|
    ensures r.outcome.Done? ==> r.outcome == PASSWORD_UPDATED || r.outcome == LINK_EXPIRED
    ensures r.outcome.Thrown? ==> r.outcome.error.status == BAD_REQUEST
  {
    match Verify(token)
    case None => Step(Thrown(Rethrow(JwtError, TokenRejected, false, BAD_REQUEST)), users)
    case Some(claims) =>
      match FindFirst(users, ByEmail(claims.email))
      case None => Step(Thrown(Rethrow(TypeError, NoUserForToken, false, BAD_REQUEST)), users)
      case Some(u) =>
        if ResetAccepted(u, token, password, confirm, now) then
          Step(PASSWORD_UPDATED, UpdateWhere(users, ByEmail(claims.email), SetPassword(Hash(password, salt))))
        else Step(LINK_EXPIRED, users)
  }

  /**
   * After a successful reset the record the token names holds the new password, and still holds
   * the same reset token and expiry.
   */
  lemma ResetKeepsToken(users: seq<User>, token: string, password: string, confirm: string, now: nat, salt: Salt)
    requires Reset(users, token, password, confirm, now, salt).outcome == PASSWORD_UPDATED
    ensures var email := Verify(token).value.email;
      var u := FindFirst(users, ByEmail(email)).value;
      FindFirst(Reset(users, token, password, confirm, now, salt).users, ByEmail(email)) ==
        Some(u.(password := Hash(password, salt)))
  {
    var email := Verify(token).value.email;
    FindAfterUpdateByEmail(users, email, SetPassword(Hash(password, salt)));
  }

  /** A reset link used within its 15 minutes succeeds, even when the mail was never delivered. */
  lemma ResetWithinWindow(users: seq<User>, email: string, protocol: string, host: string, now: nat,
                          delivered: bool, later: nat, password: string, salt: Salt)
    requires FindFirst(users, ByEmail(email)).Some?
    requires now <= later <= now + RESET_WINDOW_MS
    ensures var token := ResetTokenFor(FindFirst(users, ByEmail(email)).value, now);
      var stored := Forgot(users, email, protocol, host, now, delivered).users;
      Reset(stored, token, password, password, later, salt).outcome == PASSWORD_UPDATED
  {
    var u := FindFirst(users, ByEmail(email)).value;
    var token := ResetTokenFor(u, now);
    var stored := Forgot(users, email, protocol, host, now, delivered).users;
    VerifySigned(PasswordReset(u.id, u.email, IssuedAt(now)));
    ForgotWrites(users, email, protocol, host, now, delivered);
    var v := FindFirst(stored, ByEmail(email)).value;
    assert v.resetToken == Some(token) && v.resetExpiry == Some(now + RESET_WINDOW_MS);
    assert Verify(token).value.email == email;
  }

  /** Once its 15 minutes are over the same link gets "link expired", and nothing changes. */
  lemma ResetAfterWindow(users: seq<User>, email: string, protocol: string, host: string, now: nat,
                         delivered: bool, later: nat, password: string, confirm: string, salt: Salt)
    requires FindFirst(users, ByEmail(email)).Some?
    requires later > now + RESET_WINDOW_MS
    ensures var token := ResetTokenFor(FindFirst(users, ByEmail(email)).value, now);
      var stored := Forgot(users, email, protocol, host, now, delivered).users;
      Reset(stored, token, password, confirm, later, salt) == Step(LINK_EXPIRED, stored)
  {
    var u := FindFirst(users, ByEmail(email)).value;
    var token := ResetTokenFor(u, now);
    var stored := Forgot(users, email, protocol, host, now, delivered).users;
    VerifySigned(PasswordReset(u.id, u.email, IssuedAt(now)));
    ForgotWrites(users, email, protocol, host, now, delivered);
    var v := FindFirst(stored, ByEmail(email)).value;
    assert v.resetToken == Some(token) && v.resetExpiry == Some(now + RESET_WINDOW_MS);
    assert Verify(token).value.email == email;
  }

  /**
   * A valid, unexpired link with a confirmation that differs from the password gets "link
   * expired" (a 406 reply, not an error), and nothing changes.
   */
  lemma ResetMismatchedPasswords(users: seq<User>, email: string, protocol: string, host: string, now: nat,
                                 delivered: bool, later: nat, password: string, confirm: string, salt: Salt)
    requires FindFirst(users, ByEmail(email)).Some?
    requires now <= later <= now + RESET_WINDOW_MS
    requires password != confirm
    ensures var token := ResetTokenFor(FindFirst(users, ByEmail(email)).value, now);
      var stored := Forgot(users, email, protocol, host, now, delivered).users;
      Reset(stored, token, password, confirm, later, salt) == Step(LINK_EXPIRED, stored)
  {
    var u := FindFirst(users, ByEmail(email)).value;
    VerifySigned(PasswordReset(u.id, u.email, IssuedAt(now)));
    ForgotWrites(users, email, protocol, host, now, delivered);
  }

  /**
   * As written, a used link is not consumed: the same token succeeds again, with any new
   * password, for as long as the stored expiry has not passed.
   */
  lemma ReplayAfterReset(users: seq<User>, token: string, password: string, now: nat, salt: Salt,
                         later: nat, password2: string, salt2: Salt)
    requires Reset(users, token, password, password, now, salt).outcome == PASSWORD_UPDATED
    requires NotExpired(FindFirst(users, ByEmail(Verify(token).value.email)).value.resetExpiry, later)
    ensures var after := Reset(users, token, password, password, now, salt).users;
      Reset(after, token, password2, password2, later, salt2).outcome == PASSWORD_UPDATED
  {
    ResetKeepsToken(users, token, password, password, now, salt);
  }

  /**
   * A newer forgotPassword issued in a later second overwrites the stored token, so the older
   * link then gets "link expired" whatever the passwords and the time.
   */
  lemma ReissueRevokesOlderToken(users: seq<User>, email: string, protocol: string, host: string,
                                 now1: nat, delivered1: bool, now2: nat, delivered2: bool,
                                 later: nat, password: string, confirm: string, salt: Salt)
    requires FindFirst(users, ByEmail(email)).Some?
    requires IssuedAt(now1) != IssuedAt(now2)
    ensures var token1 := ResetTokenFor(FindFirst(users, ByEmail(email)).value, now1);
      var stored1 := Forgot(users, email, protocol, host, now1, delivered1).users;
      var stored2 := Forgot(stored1, email, protocol, host, now2, delivered2).users;
      Reset(stored2, token1, password, confirm, later, salt) == Step(LINK_EXPIRED, stored2)
  {
    var u := FindFirst(users, ByEmail(email)).value;
    var claims1 := PasswordReset(u.id, u.email, IssuedAt(now1));
    var claims2 := PasswordReset(u.id, u.email, IssuedAt(now2));
    var token1 := Sign(claims1);
    var token2 := Sign(claims2);
    var stored1 := Forgot(users, email, protocol, host, now1, delivered1).users;
    FindAfterUpdateByEmail(users, email, SetReset(token1, now1 + RESET_WINDOW_MS));
    var u1 := FindFirst(stored1, ByEmail(email)).value;
    assert u1.id == u.id && u1.email == u.email;
    FindAfterUpdateByEmail(stored1, email, SetReset(token2, now2 + RESET_WINDOW_MS));
    VerifySigned(claims1);
    SignInjective(claims1, claims2);
  }

  /**
   * A newer forgotPassword issued within the same second signs the same claims, so the older
   * link stays valid for the new 15 minutes.
   */
  lemma ReissueInSameSecondKeepsToken(users: seq<User>, email: string, protocol: string, host: string,
                                      now1: nat, delivered1: bool, now2: nat, delivered2: bool,
                                      password: string, salt: Salt)
    requires FindFirst(users, ByEmail(email)).Some?
    requires IssuedAt(now1) == IssuedAt(now2)
    ensures var token1 := ResetTokenFor(FindFirst(users, ByEmail(email)).value, now1);
      var stored1 := Forgot(users, email, protocol, host, now1, delivered1).users;
      var stored2 := Forgot(stored1, email, protocol, host, now2, delivered2).users;
      Reset(stored2, token1, password, password, now2, salt).outcome == PASSWORD_UPDATED
  {
    var u := FindFirst(users, ByEmail(email)).value;
    var token1 := ResetTokenFor(u, now1);
    var stored1 := Forgot(users, email, protocol, host, now1, delivered1).users;
    ForgotWrites(users, email, protocol, host, now1, delivered1);
    var u1 := FindFirst(stored1, ByEmail(email)).value;
    assert ResetTokenFor(u1, now2) == token1;
    var stored2 := Forgot(stored1, email, protocol, host, now2, delivered2).users;
    ForgotWrites(stored1, email, protocol, host, now2, delivered2);
    VerifySigned(PasswordReset(u.id, u.email, IssuedAt(now1)));
    assert FindFirst(stored2, ByEmail(email)).value.resetToken == Some(token1);
  }

  /**
   * resetPassword with the clearing step doing what its call asks for: the reset fields go back
   * to null together with the password change.
   */
  function ResetClearingToken(users: seq<User>, token: string, password: string, confirm: string, now: nat, salt: Salt): (r: Step)
    ensures r.outcome == Reset(users, token, password, confirm, now, salt).outcome
    ensures r.outcome != PASSWORD_UPDATED ==> r.users == users
    ensures r.outcome == PASSWORD_UPDATED ==>
      var email := Verify(token).value.email;
      r.users == UpdateWhere(UpdateWhere(users, ByEmail(email), SetPassword(Hash(password, salt))), ByEmail(email), ClearReset)
  {
    var step := Reset(users, token, password, confirm, now, salt);
    if step.outcome == PASSWORD_UPDATED then
      Step(step.outcome, UpdateWhere(step.users, ByEmail(Verify(token).value.email), ClearReset))
    else step
  }

  /**
   * The corrected reset, on success: the token's record has the new digest and null reset
   * fields, every record with another email is as it was, and no record is added or removed.
   */
  lemma ClearingResetWrites(users: seq<User>, token: string, password: string, confirm: string, now: nat, salt: Salt)
    requires ResetClearingToken(users, token, password, confirm, now, salt).outcome == PASSWORD_UPDATED
    ensures var email := Verify(token).value.email;
      var u := FindFirst(users, ByEmail(email)).value;
      var after := ResetClearingToken(users, token, password, confirm, now, salt).users;
      && FindFirst(after, ByEmail(email)) == Some(u.(password := Hash(password, salt), resetToken := None, resetExpiry := None))
      && |after| == |users|
      && forall i :: 0 <= i < |users| && users[i].email != email ==> after[i] == users[i]
  {
    var email := Verify(token).value.email;
    var mid := Reset(users, token, password, confirm, now, salt).users;
    var after := ResetClearingToken(users, token, password, confirm, now, salt).users;
    assert mid == UpdateWhere(users, ByEmail(email), SetPassword(Hash(password, salt)));
    assert after == UpdateWhere(mid, ByEmail(email), ClearReset);
    FindAfterUpdateByEmail(users, email, SetPassword(Hash(password, salt)));
    FindAfterUpdateByEmail(mid, email, ClearReset);
    forall i | 0 <= i < |users| && users[i].email != email ensures after[i] == users[i] {
      assert mid[i] == users[i];
    }
  }

  /** With the clearing step in force, a reset link works at most once. */
  lemma ClearedTokenIsSingleUse(users: seq<User>, token: string, password: string, now: nat, salt: Salt,
                                later: nat, password2: string, confirm2: string, salt2: Salt)
    requires ResetClearingToken(users, token, password, password, now, salt).outcome == PASSWORD_UPDATED
    ensures var after := ResetClearingToken(users, token, password, password, now, salt).users;
      ResetClearingToken(after, token, password2, confirm2, later, salt2) == Step(LINK_EXPIRED, after)
  {
    var email := Verify(token).value.email;
    var mid := Reset(users, token, password, password, now, salt).users;
    FindAfterUpdateByEmail(users, email, SetPassword(Hash(password, salt)));
    FindAfterUpdateByEmail(mid, email, ClearReset);
  }

  class AuthService {
    const userService: UserService

    constructor (userService: UserService)
      ensures this.userService == userService
    {
      this.userService := userService;
    }

    /** `login`: look the email up, compare the password, sign `{ email, role }`. */
    method Login(email: string, password: string, now: nat) returns (r: Outcome<LoginData>)
      ensures r == LoginDecision(userService.users, email, password, now)
    {
      var user := userService.GetUserByEmail(email);
      if user.None? {
        return Thrown(Rethrow(Unauthorized, EmailCredential, true, INTERNAL_SERVER_ERROR));
      }
      var passwordValidate := Matches(password, user.value.password);
      if !passwordValidate {
        return Thrown(Rethrow(Unauthorized, InvalidPasswordCredentials, true, INTERNAL_SERVER_ERROR));
      }
      var accessToken := Sign(Session(user.value.email, user.value.role, IssuedAt(now)));
      r := Done(Reply(CREATED, None, LoginData(accessToken, ProfileOf(user.value))));
    }

    /** `forgotPassword`: store a fresh token and expiry, then mail the link. */
    method ForgotPassword(email: string, protocol: string, host: string, now: nat, delivered: bool)
      returns (r: Outcome<()>, mail: Option<Mail>)
      requires userService.Valid()
      modifies userService`users
      ensures userService.Valid()
      ensures ForgotResult(r, mail, userService.users) == Forgot(old(userService.users), email, protocol, host, now, delivered)
    {
      var user := userService.GetUserByEmail(email);
      if user.None? {
        r, mail := Thrown(Rethrow(Unauthorized, EmailNotFound, false, INTERNAL_SERVER_ERROR)), None;
        return;
      }
      var userEmail := user.value.email;
      var token := Sign(PasswordReset(user.value.id, userEmail, IssuedAt(now)));
      var expireTime := now + RESET_WINDOW_MS;
      userService.SetTokenAndDate(userEmail, Some(token), Some(expireTime));
      mail := Some(Mail(userEmail, "Reset Password link", ResetLink(protocol, host, token)));
      if !delivered {
        r := Thrown(Rethrow(NotFound, EmailNotFound, false, INTERNAL_SERVER_ERROR));
        return;
      }
      r := Done(Reply(CREATED, Some(ForgotPasswordEmailSent), ()));
    }

    /** `resetPassword`, as written: its clearing call passes nulls, which setTokenAndDate ignores. */
    method ResetPassword(token: string, password: string, confirm: string, now: nat, salt: Salt)
      returns (r: Outcome<()>)
      requires userService.Valid()
      modifies userService`users
      ensures userService.Valid()
      ensures Step(r, userService.users) == Reset(old(userService.users), token, password, confirm, now, salt)
    {
      var decoded := Verify(token);
      if decoded.None? {
        return Thrown(Rethrow(JwtError, TokenRejected, false, BAD_REQUEST));
      }
      var email := decoded.value.email;
      var user := userService.GetUserByEmail(email);
      if user.None? {
        return Thrown(Rethrow(TypeError, NoUserForToken, false, BAD_REQUEST));
      }
      if user.value.resetToken == Some(token) && NotExpired(user.value.resetExpiry, now) {
        if password == confirm {
          var hashPass := Hash(password, salt);
          var result := userService.UserPasswordUpdate(email, hashPass);
          if result {
            userService.SetTokenAndDate(email, None, None);
            return PASSWORD_UPDATED;
          }
        }
      }
      r := LINK_EXPIRED;
    }

    /** resetPassword with the reset fields cleared after the password change. */
    method ResetPasswordClearingToken(token: string, password: string, confirm: string, now: nat, salt: Salt)
      returns (r: Outcome<()>)
      requires userService.Valid()
      modifies userService`users
      ensures userService.Valid()
      ensures Step(r, userService.users) == ResetClearingToken(old(userService.users), token, password, confirm, now, salt)
    {
      r := ResetPassword(token, password, confirm, now, salt);
      if r == PASSWORD_UPDATED {
        userService.ClearTokenAndDate(Verify(token).value.email);
      }
    }
  }
}
