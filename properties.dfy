/**
 * Properties of the controller that relate several requests: passcodes are
 * single use, a new passcode replaces the old one, credentials are replaced
 * by resets and changes, `verified` only ever goes from false to true and
 * only through verifyOtp, and any sequence of requests keeps the store
 * valid (unique non-blank emails, tokens only for verified users).
 */
module Properties {
  import opened Records
  import opened Validation
  import opened Handlers

  /** One inbound request, with the outcomes of `mt_rand` and the mailer it meets. */
  datatype Request =
    | RegisterRequest(register: RegisterForm, draw: int, delivered: bool)
    | LoginRequest(login: LoginForm)
    | VerifyOtpRequest(verify: VerifyOtpForm)
    | ForgotPasswordRequest(forgot: ForgotPasswordForm, draw: int, delivered: bool)
    | ResetPasswordRequest(reset: ResetPasswordForm)
    | ChangePasswordRequest(caller: UserId, change: ChangePasswordForm)
    | ChangeProfileRequest(caller: UserId, profile: ChangeProfileForm)

  /** Every code `mt_rand(1000, 9999)` hands out is in range. */
  predicate Admissible(req: Request)
  {
    (req.RegisterRequest? || req.ForgotPasswordRequest?) ==> InOtpRange(req.draw)
  }

  /**
   * `s2` extends `s1`: no row disappears, no verified row becomes
   * unverified, and mails and tokens are only ever appended.
   */
  ghost predicate Grows(s1: Store, s2: Store)
  {
    && s1.users.Keys <= s2.users.Keys
    && (forall id :: id in s1.users && s1.users[id].verified ==> s2.users[id].verified)
    && |s1.outbox| <= |s2.outbox| && s2.outbox[..|s1.outbox|] == s1.outbox
    && |s1.tokens| <= |s2.tokens| && s2.tokens[..|s1.tokens|] == s1.tokens
  }

  /**
   * Routes a request to its handler. The two authenticated routes are
   * guarded by the token middleware, which answers 401 for a caller that has
   * no row before the controller is reached.
   */
  function Handle(s: Store, req: Request): (t: Transition)
    requires Valid(s) && Admissible(req)
    ensures Valid(t.after)
    ensures (req.ChangePasswordRequest? || req.ChangeProfileRequest?) && req.caller !in s.users ==>
              t == Reject(s, Unauthorized)
  {
    match req
    case RegisterRequest(f, draw, delivered) => Register(s, f, draw, delivered)
    case LoginRequest(f) => Login(s, f)
    case VerifyOtpRequest(f) => VerifyOtp(s, f)
    case ForgotPasswordRequest(f, draw, delivered) => ForgotPassword(s, f, draw, delivered)
    case ResetPasswordRequest(f) => ResetPassword(s, f)
    case ChangePasswordRequest(caller, f) =>
      if caller in s.users then ChangePassword(s, caller, f) else Reject(s, Unauthorized)
    case ChangeProfileRequest(caller, f) =>
      if caller in s.users then ChangeProfile(s, caller, f) else Reject(s, Unauthorized)
  }

  /** A row saved in place by a handler keeps its key and its verified flag. */
  lemma SavedRowGrows(s: Store, t: Transition, id: UserId)
    requires id in s.users && OnlyRowChanged(s.users, t.after.users, id)
    requires s.users[id].verified ==> t.after.users[id].verified
    requires |s.outbox| <= |t.after.outbox| && t.after.outbox[..|s.outbox|] == s.outbox
    requires |s.tokens| <= |t.after.tokens| && t.after.tokens[..|s.tokens|] == s.tokens
    ensures Grows(s, t.after)
  {
  }

  /** Every handler extends the store. */
  lemma HandleGrows(s: Store, req: Request)
    requires Valid(s) && Admissible(req)
    ensures Grows(s, Handle(s, req).after)
  {
    var t := Handle(s, req);
    match req
    case RegisterRequest(f, draw, delivered) =>
      assert t.after.outbox[..|s.outbox|] == s.outbox;
    case LoginRequest(f) =>
      assert t.after.tokens[..|s.tokens|] == s.tokens;
    case VerifyOtpRequest(f) =>
      if VerifyOtpValid(f) && OtpMatches(s.users, f.email.value, f.otp.value) {
        var id := FindByEmailAndOtp(s, f.email.value, f.otp.value).value;
        assert t.after.tokens[..|s.tokens|] == s.tokens;
        SavedRowGrows(s, t, id);
      }
    case ForgotPasswordRequest(f, draw, delivered) =>
      if ForgotPasswordValid(f) && EmailTaken(s.users, f.email.value) {
        var id := FindByEmail(s, f.email.value).value;
        assert t.after.outbox[..|s.outbox|] == s.outbox;
        SavedRowGrows(s, t, id);
      }
    case ResetPasswordRequest(f) =>
      if ResetPasswordValid(f) && OtpMatches(s.users, f.email.value, f.otp.value) {
        var id := FindByEmailAndOtp(s, f.email.value, f.otp.value).value;
        assert t.after.outbox[..|s.outbox|] == s.outbox;
        SavedRowGrows(s, t, id);
      }
    case ChangePasswordRequest(caller, f) =>
      if caller in s.users && t.after != s {
        SavedRowGrows(s, t, caller);
      }
    case ChangeProfileRequest(caller, f) =>
      if caller in s.users && t.after != s {
        SavedRowGrows(s, t, caller);
      }
  }

  /** The store after handling `reqs` in order. */
  function Run(s: Store, reqs: seq<Request>): (s': Store)
    requires Valid(s) && forall i :: 0 <= i < |reqs| ==> Admissible(reqs[i])
    ensures Valid(s') && Grows(s, s')
    decreases |reqs|
  {
    if reqs == [] then s
    else
      HandleGrows(s, reqs[0]);
      Run(Handle(s, reqs[0]).after, reqs[1..])
  }

  /**
   * Starting from the empty database, every token ever minted by any
   * sequence of requests is bound to an existing verified user, and no two
   * users share a non-blank email.
   */
  lemma TokensOnlyForVerifiedUsers(reqs: seq<Request>)
    requires forall i :: 0 <= i < |reqs| ==> Admissible(reqs[i])
    ensures var s := Run(Empty(), reqs);
            && UniqueEmails(s.users)
            && forall i :: 0 <= i < |s.tokens| ==> s.tokens[i].user in s.users && s.users[s.tokens[i].user].verified
  {
  }

  /**
   * `verified` is set by verifyOtp alone: when a request turns an existing
   * unverified row verified, it was a verifyOtp request, it succeeded, and
   * the token it returned is bound to that row.
   */
  lemma OnlyVerifyOtpVerifies(s: Store, req: Request, id: UserId)
    requires Valid(s) && Admissible(req)
    requires id in s.users && !s.users[id].verified
    requires Handle(s, req).after.users[id].verified
    ensures req.VerifyOtpRequest?
    ensures Handle(s, req).response == Response(Ok, Some(Token(id, |s.tokens|)))
  {
  }

  /**
   * A passcode verifies once: after a successful verifyOtp, the same
   * (email, otp) pair is refused with 400 and no change, both by verifyOtp
   * and by resetPassword.
   */
  lemma VerifyOtpIsSingleUse(s: Store, f: VerifyOtpForm, password: string)
    requires Valid(s) && VerifyOtp(s, f).response.status == Ok
    ensures var after := VerifyOtp(s, f).after;
            && VerifyOtp(after, f) == Reject(after, BadRequest)
            && (NewPassword(Some(password), Some(password)) ==>
                  ResetPassword(after, ResetPasswordForm(f.email, f.otp, Some(password), Some(password)))
                  == Reject(after, BadRequest))
  {
  }

  /**
   * A passcode resets once: after a successful resetPassword, any reset
   * form with the same (email, otp) pair is refused without change (400, or
   * 422 when the rest of the form is invalid), and verifyOtp refuses the
   * pair with 400.
   */
  lemma ResetPasswordIsSingleUse(s: Store, f: ResetPasswordForm, g: ResetPasswordForm)
    requires Valid(s) && ResetPassword(s, f).response.status == Ok
    requires g.email == f.email && g.otp == f.otp
    ensures var after := ResetPassword(s, f).after;
            && ResetPassword(after, g).response.status in {Unprocessable, BadRequest}
            && ResetPassword(after, g).after == after
            && VerifyOtp(after, VerifyOtpForm(f.email, f.otp)) == Reject(after, BadRequest)
  {
  }

  /**
   * A new passcode replaces the old one: after forgotPassword on a known
   * email (whether or not the mail went out), a code matches that email
   * exactly when it is the new one, so verifyOtp with it succeeds and with
   * any other code, the previous one included, fails with 400.
   */
  lemma NewOtpReplacesOld(s: Store, f: ForgotPasswordForm, draw: int, delivered: bool, code: int)
    requires Valid(s) && InOtpRange(draw)
    requires ForgotPasswordValid(f) && EmailTaken(s.users, f.email.value)
    ensures var after := ForgotPassword(s, f, draw, delivered).after;
            && (OtpMatches(after.users, f.email.value, code) <==> code == draw)
            && (VerifyOtp(after, VerifyOtpForm(f.email, Some(code))).response.status == Ok <==> code == draw)
  {
  }

  /**
   * resetPassword replaces the credential and leaves verification alone:
   * afterwards the new password passes the credential check at login (so
   * login gives 200 for a verified row and 403 for an unverified one), and
   * an old password that differs from it gives 401.
   */
  lemma ResetReplacesCredential(s: Store, f: ResetPasswordForm, oldPassword: string)
    requires Valid(s) && ResetPassword(s, f).response.status == Ok
    requires IsEmail(f.email.value) && Required(Some(oldPassword)) && oldPassword != f.password.value
    ensures var after := ResetPassword(s, f).after;
            var id := FindByEmail(s, f.email.value).value;
            && after.users[id].verified == s.users[id].verified
            && Login(after, LoginForm(f.email, f.password)).response.status
                 == (if s.users[id].verified then Ok else Forbidden)
            && Login(after, LoginForm(f.email, Some(oldPassword))).response.status == Unauthorized
  {
  }

  /**
   * changePassword replaces only the caller's credential: afterwards the
   * caller's email logs in with the new password exactly as far as
   * verification allows, and the old password (if different) gives 401.
   */
  lemma ChangePasswordReplacesCredential(s: Store, caller: UserId, f: ChangePasswordForm)
    requires Valid(s) && caller in s.users
    requires ChangePassword(s, caller, f).response.status == Ok
    requires IsEmail(s.users[caller].email) && f.newPassword != f.currentPassword
    ensures var after := ChangePassword(s, caller, f).after;
            var email := s.users[caller].email;
            && Login(after, LoginForm(Some(email), f.newPassword)).response.status
                 == (if s.users[caller].verified then Ok else Forbidden)
            && Login(after, LoginForm(Some(email), f.currentPassword)).response.status == Unauthorized
  {
  }

  /**
   * The code sent by forgotPassword also verifies the account: verifyOtp
   * with it marks the row verified and returns a token bound to it, without
   * the password being asked for.
   */
  lemma ForgotPasswordCodeLogsIn(s: Store, f: ForgotPasswordForm, draw: int, delivered: bool)
    requires Valid(s) && InOtpRange(draw)
    requires ForgotPasswordValid(f) && EmailTaken(s.users, f.email.value)
    ensures var after := ForgotPassword(s, f, draw, delivered).after;
            var id := FindByEmail(s, f.email.value).value;
            var t := VerifyOtp(after, VerifyOtpForm(f.email, Some(draw)));
            && t.response == Response(Ok, Some(Token(id, |s.tokens|)))
            && t.after.users[id].verified
  {
  }

  /**
   * Register is not repeatable: once a form has created a row, the same
   * form is refused with 422 and no change, because its email is taken.
   */
  lemma RegisterTwiceRejected(s: Store, f: RegisterForm, draw1: int, draw2: int, delivered1: bool, delivered2: bool)
    requires Valid(s) && InOtpRange(draw1) && InOtpRange(draw2)
    requires RegisterValid(s.users, f)
    ensures var after := Register(s, f, draw1, delivered1).after;
            Register(after, f, draw2, delivered2) == Reject(after, Unprocessable)
  {
  }

  /**
   * A profile change cannot take another user's email: when the supplied
   * email belongs to a different row, the request gives 422 and changes
   * nothing. A blank email is the exception: no rule runs on it, so it is
   * written even when another row holds it too.
   */
  lemma ProfileEmailStaysUnique(s: Store, caller: UserId, other: UserId, f: ChangeProfileForm)
    requires Valid(s) && caller in s.users && other in s.users && other != caller
    requires f.email == Some(s.users[other].email)
    ensures !Blank(f.email.value) ==> ChangeProfile(s, caller, f) == Reject(s, Unprocessable)
    ensures Blank(f.email.value) && f.name.None? && f.location.None? && f.phoneNumber.None? ==>
              var t := ChangeProfile(s, caller, f);
              t.response.status == Ok && t.after.users[caller].email == s.users[other].email
  {
  }
}
