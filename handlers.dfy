/**
 * What each of the seven request handlers does to the store, as a function
 * from the store before the request to the store after it and the response.
 * The contracts state the handler's promises: the status for every outcome,
 * the store left untouched on every validation or match failure, and on
 * success exactly which fields of which row change.
 */
module Handlers {
  import opened Records
  import opened Validation

  /** The store after a request, and the response sent back. */
  datatype Transition = Transition(after: Store, response: Response)

  /** The response of a handler that changed nothing. */
  function Reject(s: Store, status: int): (t: Transition)
  {
    Transition(s, Response(status, None))
  }

  /** `after` has the same rows as `before`, and only row `id` may differ. */
  ghost predicate OnlyRowChanged(before: map<UserId, User>, after: map<UserId, User>, id: UserId)
  {
    && after.Keys == before.Keys
    && forall k :: k in before && k != id ==> after[k] == before[k]
  }

  /** The row `register` creates from a form that passed validation. */
  ghost predicate Registered(u: User, f: RegisterForm, code: int)
    requires Required(f.name) && Required(f.email) && Required(f.password)
  {
    && u.name == f.name.value
    && u.email == f.email.value
    && Check(f.password.value, u.password)
    && u.location == f.location
    && u.phone == f.phoneNumber
    && !u.verified
    && u.otp == Some(code)
  }

  /** Some row holds `email` and a digest of `password`. */
  ghost predicate CredentialsMatch(users: map<UserId, User>, email: string, password: string)
  {
    exists id :: id in users && users[id].email == email && Check(password, users[id].password)
  }

  /** Some verified row holds `email` and a digest of `password`. */
  ghost predicate CanLogIn(users: map<UserId, User>, email: string, password: string)
  {
    exists id :: id in users && users[id].email == email && Check(password, users[id].password)
                 && users[id].verified
  }

  /** The token `createToken` mints next for `id`. */
  function NextToken(s: Store, id: UserId): (token: Token)
    requires Valid(s)
    ensures token.user == id && token !in s.tokens
  {
    Token(id, |s.tokens|)
  }

  /**
   * `register`: a form that fails validation (missing or over-long field,
   * malformed or already used email, short or unconfirmed password) gives
   * 422 and changes nothing. Otherwise one row is added under the next key,
   * unverified, with the password's digest and a pending code `draw`, and
   * the code is mailed; a mail that cannot be delivered gives 500, after the
   * row has been saved.
   */
  function Register(s: Store, f: RegisterForm, draw: int, delivered: bool): (t: Transition)
    requires Valid(s) && InOtpRange(draw)
    ensures Valid(t.after)
    ensures !RegisterValid(s.users, f) ==> t == Reject(s, Unprocessable)
    ensures RegisterValid(s.users, f) ==>
      && s.nextId !in s.users
      && t.after.users.Keys == s.users.Keys + {s.nextId}
      && (forall id :: id in s.users ==> t.after.users[id] == s.users[id])
      && Registered(t.after.users[s.nextId], f, draw)
      && t.after.outbox == s.outbox + (if delivered then [Mail(f.email.value, draw)] else [])
      && t.after.tokens == s.tokens
      && t.response == Response(if delivered then Ok else ServerError, None)
  {
    if !RegisterValid(s.users, f) then Reject(s, Unprocessable)
    else
      var id := s.nextId;
      var user := User(f.name.value, f.email.value, Hash(f.password.value),
                       f.location, f.phoneNumber, false, None);
      var users := s.users[id := user.(otp := Some(draw))];
      var outbox := if delivered then s.outbox + [Mail(user.email, draw)] else s.outbox;
      Transition(Store(users, id + 1, outbox, s.tokens),
                 Response(if delivered then Ok else ServerError, None))
  }

  /**
   * `login`: a token exactly when the form is valid and a verified row holds
   * the email and a digest of the password. An unknown email or a wrong
   * password gives 401 before verification is looked at; a right password
   * on an unverified row gives 403. The users table never changes; the only
   * change to the store is the minted token.
   */
  function Login(s: Store, f: LoginForm): (t: Transition)
    requires Valid(s)
    ensures Valid(t.after)
    ensures t.after.users == s.users && t.after.nextId == s.nextId && t.after.outbox == s.outbox
    ensures t.response.token.Some? <==> t.response.status == Ok
    ensures t.response.status == Ok <==>
              LoginValid(f) && CanLogIn(s.users, f.email.value, f.password.value)
    ensures !LoginValid(f) ==> t.response.status == Unprocessable
    ensures LoginValid(f) && !CredentialsMatch(s.users, f.email.value, f.password.value) ==>
              t.response.status == Unauthorized
    ensures LoginValid(f) && CredentialsMatch(s.users, f.email.value, f.password.value)
              && !CanLogIn(s.users, f.email.value, f.password.value) ==>
              t.response.status == Forbidden
    ensures t.response.token.Some? ==>
              var token := t.response.token.value;
              && token.user in s.users && s.users[token.user].email == f.email.value
              && s.users[token.user].verified
              && t.after.tokens == s.tokens + [token]
    ensures t.response.token.None? ==> t.after == s
  {
    if !LoginValid(f) then Reject(s, Unprocessable)
    else
      var found := FindByEmail(s, f.email.value);
      if found.None? || !Check(f.password.value, s.users[found.value].password) then
        Reject(s, Unauthorized)
      else if !s.users[found.value].verified then
        Reject(s, Forbidden)
      else
        var token := NextToken(s, found.value);
        Transition(s.(tokens := s.tokens + [token]), Response(Ok, Some(token)))
  }

  /**
   * `verifyOtp`: when a row holds the email and the pending code, that row
   * becomes verified, its code is cleared and a token is minted for it;
   * nothing else changes. A pair that matches no row gives 400, an invalid
   * form 422, and both leave the store as it was.
   */
  function VerifyOtp(s: Store, f: VerifyOtpForm): (t: Transition)
    requires Valid(s)
    ensures Valid(t.after)
    ensures !VerifyOtpValid(f) ==> t == Reject(s, Unprocessable)
    ensures VerifyOtpValid(f) && !OtpMatches(s.users, f.email.value, f.otp.value) ==>
              t == Reject(s, BadRequest)
    ensures VerifyOtpValid(f) && OtpMatches(s.users, f.email.value, f.otp.value) ==>
              forall id :: id in s.users && s.users[id].email == f.email.value ==>
                && OnlyRowChanged(s.users, t.after.users, id)
                && t.after.users[id] == s.users[id].(verified := true, otp := None)
                && t.after.tokens == s.tokens + [Token(id, |s.tokens|)]
                && t.after.nextId == s.nextId && t.after.outbox == s.outbox
                && t.response == Response(Ok, Some(Token(id, |s.tokens|)))
  {
    if !VerifyOtpValid(f) then Reject(s, Unprocessable)
    else
      var found := FindByEmailAndOtp(s, f.email.value, f.otp.value);
      if found.None? then Reject(s, BadRequest)
      else
        var id := found.value;
        var user := s.users[id].(verified := true, otp := None);
        var token := NextToken(s, id);
        Transition(s.(users := s.users[id := user], tokens := s.tokens + [token]),
                   Response(Ok, Some(token)))
  }

  /**
   * `forgotPassword`: an unknown email gives 404 and an invalid form 422,
   * with no change. For a known email the row's pending code becomes `draw`
   * (whatever it was before) and the code is mailed; no other field and no
   * other row changes. An undeliverable mail gives 500 after the save.
   */
  function ForgotPassword(s: Store, f: ForgotPasswordForm, draw: int, delivered: bool): (t: Transition)
    requires Valid(s) && InOtpRange(draw)
    ensures Valid(t.after)
    ensures !ForgotPasswordValid(f) ==> t == Reject(s, Unprocessable)
    ensures ForgotPasswordValid(f) && !EmailTaken(s.users, f.email.value) ==> t == Reject(s, NotFound)
    ensures ForgotPasswordValid(f) && EmailTaken(s.users, f.email.value) ==>
              forall id :: id in s.users && s.users[id].email == f.email.value ==>
                && OnlyRowChanged(s.users, t.after.users, id)
                && t.after.users[id] == s.users[id].(otp := Some(draw))
                && t.after.outbox == s.outbox + (if delivered then [Mail(f.email.value, draw)] else [])
                && t.after.nextId == s.nextId && t.after.tokens == s.tokens
                && t.response == Response(if delivered then Ok else ServerError, None)
  {
    if !ForgotPasswordValid(f) then Reject(s, Unprocessable)
    else
      var found := FindByEmail(s, f.email.value);
      if found.None? then Reject(s, NotFound)
      else
        var id := found.value;
        var user := s.users[id].(otp := Some(draw));
        var outbox := if delivered then s.outbox + [Mail(user.email, draw)] else s.outbox;
        Transition(s.(users := s.users[id := user], outbox := outbox),
                   Response(if delivered then Ok else ServerError, None))
  }

  /**
   * `resetPassword`: when a row holds the email and the pending code, its
   * digest becomes that of the new password and its code is cleared; the
   * verified flag and every other field stay as they were. A pair that
   * matches no row gives 400, an invalid form 422, with no change.
   */
  function ResetPassword(s: Store, f: ResetPasswordForm): (t: Transition)
    requires Valid(s)
    ensures Valid(t.after)
    ensures !ResetPasswordValid(f) ==> t == Reject(s, Unprocessable)
    ensures ResetPasswordValid(f) && !OtpMatches(s.users, f.email.value, f.otp.value) ==>
              t == Reject(s, BadRequest)
    ensures ResetPasswordValid(f) && OtpMatches(s.users, f.email.value, f.otp.value) ==>
              forall id :: id in s.users && s.users[id].email == f.email.value ==>
                && OnlyRowChanged(s.users, t.after.users, id)
                && t.after.users[id] == s.users[id].(password := Hash(f.password.value), otp := None)
                && Check(f.password.value, t.after.users[id].password)
                && t.after.nextId == s.nextId && t.after.outbox == s.outbox && t.after.tokens == s.tokens
                && t.response == Response(Ok, None)
  {
    if !ResetPasswordValid(f) then Reject(s, Unprocessable)
    else
      var found := FindByEmailAndOtp(s, f.email.value, f.otp.value);
      if found.None? then Reject(s, BadRequest)
      else
        var id := found.value;
        var user := s.users[id].(password := Hash(f.password.value), otp := None);
        Transition(s.(users := s.users[id := user]), Response(Ok, None))
  }

  /**
   * `changePassword` for the authenticated `caller`: a current password
   * that does not check against the stored digest gives 401 and no change;
   * otherwise only the caller's digest is replaced by that of the new one.
   */
  function ChangePassword(s: Store, caller: UserId, f: ChangePasswordForm): (t: Transition)
    requires Valid(s) && caller in s.users
    ensures Valid(t.after)
    ensures !ChangePasswordValid(f) ==> t == Reject(s, Unprocessable)
    ensures ChangePasswordValid(f) && !Check(f.currentPassword.value, s.users[caller].password) ==>
              t == Reject(s, Unauthorized)
    ensures ChangePasswordValid(f) && Check(f.currentPassword.value, s.users[caller].password) ==>
              && OnlyRowChanged(s.users, t.after.users, caller)
              && t.after.users[caller] == s.users[caller].(password := Hash(f.newPassword.value))
              && Check(f.newPassword.value, t.after.users[caller].password)
              && t.after.nextId == s.nextId && t.after.outbox == s.outbox && t.after.tokens == s.tokens
              && t.response == Response(Ok, None)
  {
    if !ChangePasswordValid(f) then Reject(s, Unprocessable)
    else if !Check(f.currentPassword.value, s.users[caller].password) then Reject(s, Unauthorized)
    else
      var user := s.users[caller].(password := Hash(f.newPassword.value));
      Transition(s.(users := s.users[caller := user]), Response(Ok, None))
  }

  /**
   * `changeProfile` for the authenticated `caller`: an over-long field or a
   * non-blank email that is malformed or held by another user gives 422 and
   * no change; a blank email is written as it is. Otherwise each of
   * name, email, location and phone takes the supplied value when one was
   * supplied and keeps its old value when not; digest, verified flag and
   * pending code are untouched, and so is every other row.
   */
  function ChangeProfile(s: Store, caller: UserId, f: ChangeProfileForm): (t: Transition)
    requires Valid(s) && caller in s.users
    ensures Valid(t.after)
    ensures !ChangeProfileValid(s.users, caller, f) ==> t == Reject(s, Unprocessable)
    ensures caller in t.after.users
    ensures ChangeProfileValid(s.users, caller, f) ==>
              var before, after := s.users[caller], t.after.users[caller];
              && OnlyRowChanged(s.users, t.after.users, caller)
              && after.name == (if f.name.Some? then f.name.value else before.name)
              && after.email == (if f.email.Some? then f.email.value else before.email)
              && after.location == (if f.location.Some? then f.location else before.location)
              && after.phone == (if f.phoneNumber.Some? then f.phoneNumber else before.phone)
              && after.password == before.password
              && after.verified == before.verified
              && after.otp == before.otp
              && t.after.nextId == s.nextId && t.after.outbox == s.outbox && t.after.tokens == s.tokens
              && t.response == Response(Ok, None)
  {
    if !ChangeProfileValid(s.users, caller, f) then Reject(s, Unprocessable)
    else
      var user := s.users[caller];
      var user := user.(name := if f.name.Some? then f.name.value else user.name);
      var user := user.(email := if f.email.Some? then f.email.value else user.email);
      var user := user.(location := if f.location.Some? then f.location else user.location);
      var user := user.(phone := if f.phoneNumber.Some? then f.phoneNumber else user.phone);
      SaveRowKeepsValid(s, caller, user);
      Transition(s.(users := s.users[caller := user]), Response(Ok, None))
  }
}
