/**
 * The request forms of the seven handlers and the Laravel validation rules
 * each one is checked against before anything is read or written. In the
 * forms of the six handlers other than changeProfile, a field the client did
 * not send, or sent as something other than a string (an integer for
 * `otp`), is None; the rules treat both alike.
 */
module Validation {
  import opened Records

  datatype RegisterForm = RegisterForm(
    name: Option<string>,
    email: Option<string>,
    password: Option<string>,
    passwordConfirmation: Option<string>,
    location: Option<string>,
    phoneNumber: Option<string>)

  datatype LoginForm = LoginForm(email: Option<string>, password: Option<string>)

  datatype VerifyOtpForm = VerifyOtpForm(email: Option<string>, otp: Option<int>)

  datatype ForgotPasswordForm = ForgotPasswordForm(email: Option<string>)

  datatype ResetPasswordForm = ResetPasswordForm(
    email: Option<string>,
    otp: Option<int>,
    password: Option<string>,
    passwordConfirmation: Option<string>)

  datatype ChangePasswordForm = ChangePasswordForm(
    currentPassword: Option<string>,
    newPassword: Option<string>,
    newPasswordConfirmation: Option<string>)

  /**
   * For a profile change, None means the key was not in the request at all;
   * a supplied key always carries a string here.
   */
  datatype ChangeProfileForm = ChangeProfileForm(
    name: Option<string>,
    email: Option<string>,
    location: Option<string>,
    phoneNumber: Option<string>)

  /** `required|string`: present, and not empty once trimmed. */
  predicate Required(field: Option<string>)
    ensures Required(field) ==> field.Some? && field.value != []
  {
    field.Some? && !Blank(field.value)
  }

  /**
   * `nullable|string|max:n`: absent, blank (Laravel runs no rule but the
   * required-type ones on a value that is empty once trimmed), or at most n
   * characters.
   */
  predicate NullableMax(field: Option<string>, n: nat)
    ensures field.None? ==> NullableMax(field, n)
    ensures NullableMax(field, n) && field.Some? && !Blank(field.value) ==> |field.value| <= n
  {
    field.None? || Blank(field.value) || |field.value| <= n
  }

  /** The `email` rule: an '@' with text on both sides of it. */
  predicate IsEmail(s: string)
    ensures IsEmail(s) ==> |s| >= 3 && '@' in s
  {
    exists i :: 0 < i < |s| - 1 && s[i] == '@'
  }

  /** `required|string|email|max:255`. */
  predicate RequiredEmail(field: Option<string>)
    ensures RequiredEmail(field) ==> field.Some? && 3 <= |field.value| <= 255 && '@' in field.value
  {
    Required(field) && IsEmail(field.value) && |field.value| <= 255
  }

  /** `required|string|min:8|confirmed`, the confirmation being `confirmation`. */
  predicate NewPassword(field: Option<string>, confirmation: Option<string>)
    ensures NewPassword(field, confirmation) ==>
              field.Some? && |field.value| >= 8 && Required(confirmation) && confirmation == field
  {
    Required(field) && |field.value| >= 8 && confirmation == field
  }

  /** The rules of `register`, including `unique:users` on the email. */
  predicate RegisterValid(users: map<UserId, User>, f: RegisterForm)
    ensures RegisterValid(users, f) ==>
              && f.name.Some? && f.email.Some? && f.password.Some?
              && (forall id :: id in users ==> users[id].email != f.email.value)
              && |f.password.value| >= 8 && f.passwordConfirmation == f.password
  {
    && Required(f.name) && |f.name.value| <= 255
    && RequiredEmail(f.email) && !EmailTaken(users, f.email.value)
    && NewPassword(f.password, f.passwordConfirmation)
    && NullableMax(f.location, 255)
    && NullableMax(f.phoneNumber, 20)
  }

  /** The rules of `login` (no length limit on the email here). */
  predicate LoginValid(f: LoginForm)
    ensures LoginValid(f) ==>
              f.email.Some? && '@' in f.email.value && f.password.Some? && f.password.value != []
  {
    Required(f.email) && IsEmail(f.email.value) && Required(f.password)
  }

  /** The rules of `verifyOtp`: a well-formed email and an integer otp. */
  predicate VerifyOtpValid(f: VerifyOtpForm)
    ensures VerifyOtpValid(f) ==> f.email.Some? && |f.email.value| <= 255 && f.otp.Some?
  {
    RequiredEmail(f.email) && f.otp.Some?
  }

  /** The rules of `forgotPassword`. */
  predicate ForgotPasswordValid(f: ForgotPasswordForm)
    ensures ForgotPasswordValid(f) ==> f.email.Some? && |f.email.value| <= 255 && '@' in f.email.value
  {
    RequiredEmail(f.email)
  }

  /** The rules of `resetPassword`. */
  predicate ResetPasswordValid(f: ResetPasswordForm)
    ensures ResetPasswordValid(f) ==>
              && f.email.Some? && f.otp.Some? && f.password.Some?
              && |f.password.value| >= 8 && f.passwordConfirmation == f.password
  {
    RequiredEmail(f.email) && f.otp.Some? && NewPassword(f.password, f.passwordConfirmation)
  }

  /** The rules of `changePassword`. */
  predicate ChangePasswordValid(f: ChangePasswordForm)
    ensures ChangePasswordValid(f) ==>
              && f.currentPassword.Some? && f.currentPassword.value != []
              && f.newPassword.Some? && |f.newPassword.value| >= 8
              && f.newPasswordConfirmation == f.newPassword
  {
    Required(f.currentPassword) && NewPassword(f.newPassword, f.newPasswordConfirmation)
  }

  /**
   * The rules of `changeProfile`: every supplied field within its length,
   * a supplied email well formed and held by no user other than `caller`.
   * Laravel runs none of `email`, `max` or `unique` on a value that is
   * blank once trimmed, so a blank email passes.
   */
  predicate ChangeProfileValid(users: map<UserId, User>, caller: UserId, f: ChangeProfileForm)
    ensures ChangeProfileValid(users, caller, f) && f.email.Some? && !Blank(f.email.value) ==>
              forall id :: id in users && id != caller ==> users[id].email != f.email.value
  {
    && NullableMax(f.name, 255)
    && (f.email.Some? && !Blank(f.email.value) ==>
          IsEmail(f.email.value) && |f.email.value| <= 255 && !TakenByOther(users, f.email.value, caller))
    && NullableMax(f.location, 255)
    && NullableMax(f.phoneNumber, 20)
  }

  /**
   * The `unique:users,email,<caller>` rule exempts the caller's own row: a
   * request that supplies nothing passes, and so does one that supplies
   * the caller's current email again.
   */
  lemma ChangeProfileAdmitsOwnEmail(users: map<UserId, User>, caller: UserId)
    requires UniqueEmails(users) && caller in users
    requires IsEmail(users[caller].email) && |users[caller].email| <= 255
    ensures ChangeProfileValid(users, caller, ChangeProfileForm(None, None, None, None))
    ensures ChangeProfileValid(users, caller, ChangeProfileForm(None, Some(users[caller].email), None, None))
  {
  }

  /** A blank email is exempt from every rule of `changeProfile`, the unique rule included. */
  lemma ChangeProfileSkipsBlankEmail(users: map<UserId, User>, caller: UserId, email: string)
    requires Blank(email)
    ensures ChangeProfileValid(users, caller, ChangeProfileForm(None, Some(email), None, None))
  {
  }
}
