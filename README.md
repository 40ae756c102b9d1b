# Authentication controller of the megamart user backend, in Dafny

This project models `AuthController`, the API controller that registers
users, logs them in, verifies their email with a one-time passcode (OTP),
recovers and changes passwords, and edits profiles. It treats the controller
as a state machine over the users table. Each row holds a name, an email, a
password digest, an optional location and phone, a `verified` flag and an
optional pending OTP.

- `records.dfy` (module `Records`) holds the row, the digest, the bearer
  token, the OTP mail and the store. The store is the users table keyed by
  auto-increment id, plus the mails sent and the tokens minted. This module
  also states the store invariant `Valid`:
  - no two rows share a non-blank email (a profile change may write a
    blank one, which no rule checks);
  - pending codes and mailed pins are in [1000, 9999];
  - every minted token belongs to a verified user and is numbered by its
    position, so no token is issued twice.

  It also holds the `where(...)->first()` lookup.
- `validation.dfy` (module `Validation`) holds the request forms and
  each handler's Laravel validation rules, written as predicates. These
  include `required` (a value that is empty once trimmed is missing),
  `min:8`, `max:n`, `confirmed`, `unique:users` and the self-excluding
  unique rule of the profile change.
- `handlers.dfy` (module `Handlers`) has one function per handler. Each
  maps the store before a request to the store after it and the response
  (status and optional token). Each function's contract gives the status of
  every outcome, says that every validation or match failure leaves the
  store as it was, and says exactly which fields of which row a success
  changes.
- `controller.dfy` (module `Controller`) holds the class
  `AuthController`. Its fields are the table, the outbox and the token
  list. Its methods validate the form, look the row up, assign its fields
  one by one and save it, as the PHP handlers do. Each method is proved to
  produce exactly the transition of the matching `Handlers` function, and
  to keep `Valid`.
- `properties.dfy` (module `Properties`) holds the properties that span
  several requests:
  - OTPs are single use;
  - a new OTP replaces the old one;
  - a reset or a password change replaces the credential;
  - `verified` only goes from false to true, and only through verifyOtp;
  - any sequence of requests keeps the store valid.

Collaborators become explicit inputs:
- `mt_rand(1000, 9999)` becomes a `draw` parameter in that range.
- The mailer's outcome becomes a `delivered` flag. A delivered mail is
  recorded as `Mail(address, pin)`.
- `Hash::make`/`Hash::check` become an ideal deterministic hash: a digest
  checks against exactly the password it was made from.
- `createToken` becomes a token value bound to the user id.
- The authenticated user of change-password and change-profile is passed as
  the `caller` id.

Some consequences of the code as written, each stated in the model:
- A mail that cannot be sent gives 500 after the row has already been saved.
- Any pending code is accepted by both verifyOtp and resetPassword. So the
  code sent by forgotPassword also verifies the account and returns a token
  (`ForgotPasswordCodeLogsIn`).
- resetPassword never sets `verified`.
- Changing the email in a profile keeps `verified` as it was.
- Email uniqueness holds only for non-blank emails. No rule runs on a
  blank profile email, so it is written even when another user holds the
  same blank value (`ProfileEmailStaysUnique`). A unique index on
  `users.email` would make that second write fail with 500. Whether the
  schema has one is not part of this model.
- A blank optional field (`location`, `phone_number`, a profile `name`)
  passes whatever its length, since `max` is not run on it either.

## Model

| member | source | states |
|---|---|---|
| Records.FirstWhere | app/Http/Controllers/Api/Auth/AuthController.php:74 | the row found is the lowest key that satisfies the query; no lower key does; None only when no key in range does |
| Records.FindByEmail | app/Http/Controllers/Api/Auth/AuthController.php:161 | finds a row exactly when some row holds the email, and the row found holds it |
| Records.FindByEmailAndOtp | app/Http/Controllers/Api/Auth/AuthController.php:119 | finds a row exactly when some row holds both the email and that pending code |
| Records.SaveRowKeepsValid | app/Http/Controllers/Api/Auth/AuthController.php:271 | saving a row keeps non-blank emails unique when its new email is its own, blank, or held by no other row (the self-excluding unique rule) |
| Records.CheckAcceptsExactlyItsPassword | app/Http/Controllers/Api/Auth/AuthController.php:76 | `Hash::check` accepts a password against the digest `Hash::make` made from it, and rejects every other password |
| Validation.Required | app/Http/Controllers/Api/Auth/AuthController.php:19 | a field that passes `required` is present and non-empty; by its definition a value made only of the characters `trim` strips (spaces, tabs, newlines, NULs, vertical tabs) counts as missing |
| Validation.NullableMax | app/Http/Controllers/Api/Auth/AuthController.php:22-23 | a field that was not sent always passes a `nullable` length rule, and a non-blank value that passes is at most n characters; a blank value is exempt from `max`, as Laravel skips it |
| Validation.IsEmail | app/Http/Controllers/Api/Auth/AuthController.php:20 | a value that passes the `email` rule has at least three characters and contains '@' |
| Validation.RequiredEmail | app/Http/Controllers/Api/Auth/AuthController.php:111 | `required\|string\|email\|max:255` admits only a present value of 3 to 255 characters that contains '@' |
| Validation.NewPassword | app/Http/Controllers/Api/Auth/AuthController.php:21 | `required\|string\|min:8\|confirmed` admits only a present password of at least 8 characters whose confirmation is present, non-blank and equal to it |
| Validation.RegisterValid | app/Http/Controllers/Api/Auth/AuthController.php:18-24 | a register form passes only with name, email and password present, an email held by no row, and a password of at least 8 characters equal to its confirmation |
| Validation.LoginValid | app/Http/Controllers/Api/Auth/AuthController.php:65-68 | a login form passes only with an email containing '@' and a non-empty password; the email has no length limit here |
| Validation.VerifyOtpValid | app/Http/Controllers/Api/Auth/AuthController.php:110-113 | a verifyOtp form passes only with an email of at most 255 characters and an integer otp |
| Validation.ForgotPasswordValid | app/Http/Controllers/Api/Auth/AuthController.php:153-155 | a forgotPassword form passes only with an email of at most 255 characters containing '@' |
| Validation.ResetPasswordValid | app/Http/Controllers/Api/Auth/AuthController.php:196-200 | a resetPassword form passes only with email and integer otp present and a new password of at least 8 characters equal to its confirmation |
| Validation.ChangePasswordValid | app/Http/Controllers/Api/Auth/AuthController.php:234-237 | a changePassword form passes only with a non-empty current password and a new password of at least 8 characters equal to its confirmation |
| Validation.ChangeProfileValid | app/Http/Controllers/Api/Auth/AuthController.php:269-274 | a profile form that passes carries no non-blank email held by a row other than the caller's; a blank email is exempt from the email, max and unique rules, as Laravel skips every non-required rule on it |
| Validation.ChangeProfileSkipsBlankEmail | app/Http/Controllers/Api/Auth/AuthController.php:271 | a profile form whose only field is a blank email passes validation, whoever else holds that email |
| Validation.ChangeProfileAdmitsOwnEmail | app/Http/Controllers/Api/Auth/AuthController.php:271 | the unique rule ignores the caller's own row: an empty profile form passes, and so does one that re-submits the caller's current email |
| Handlers.NextToken | app/Http/Controllers/Api/Auth/AuthController.php:90 | the token minted for a row is bound to that row and differs from every token issued before |
| Handlers.Register | app/Http/Controllers/Api/Auth/AuthController.php:15-51 | invalid form (missing, too long, malformed or taken email, password under 8 characters or unconfirmed): 422 and no change; otherwise exactly one new row under the next key, unverified, with the password's digest and pending code in range; code mailed; 500 only when the mail fails, after the save |
| Handlers.Login | app/Http/Controllers/Api/Auth/AuthController.php:62-96 | token iff the form is valid and a verified row holds the email and a digest of the password; unknown email or wrong password gives 401, a right password on an unverified row 403, an invalid form 422; the users table never changes |
| Handlers.VerifyOtp | app/Http/Controllers/Api/Auth/AuthController.php:107-139 | on a matching (email, otp) pair only that row changes: verified becomes true, the code is cleared, and a token bound to it is returned; no match gives 400 and an invalid form 422, both with no change |
| Handlers.ForgotPassword | app/Http/Controllers/Api/Auth/AuthController.php:150-181 | unknown email gives 404 with no change; a known email's row gets the new code as its only change, and the code is mailed |
| Handlers.ResetPassword | app/Http/Controllers/Api/Auth/AuthController.php:193-221 | on a match only that row's digest (now that of the new password) and code (cleared) change; verified and the other fields are kept; no match gives 400 with no change |
| Handlers.ChangePassword | app/Http/Controllers/Api/Auth/AuthController.php:231-257 | wrong current password gives 401 with no change; otherwise only the caller's digest changes, to that of the new password |
| Handlers.ChangeProfile | app/Http/Controllers/Api/Auth/AuthController.php:266-300 | each supplied field among name, email, location and phone is replaced (a blank email included) and the rest are kept; digest, verified and code untouched; a non-blank email held by another row gives 422 with no change |
| Controller.AuthController.CreateToken | app/Http/Controllers/Api/Auth/AuthController.php:90 | appends one token bound to the user and returns it; the users table is unchanged |
| Controller.AuthController.Register | app/Http/Controllers/Api/Auth/AuthController.php:15-51 | the imperative handler produces exactly the Handlers.Register transition and keeps the store valid |
| Controller.AuthController.Login | app/Http/Controllers/Api/Auth/AuthController.php:62-104 | the imperative handler produces exactly the Handlers.Login transition and keeps the store valid |
| Controller.AuthController.VerifyOtp | app/Http/Controllers/Api/Auth/AuthController.php:107-147 | the imperative handler produces exactly the Handlers.VerifyOtp transition and keeps the store valid |
| Controller.AuthController.ForgotPassword | app/Http/Controllers/Api/Auth/AuthController.php:150-189 | the imperative handler produces exactly the Handlers.ForgotPassword transition and keeps the store valid |
| Controller.AuthController.ResetPassword | app/Http/Controllers/Api/Auth/AuthController.php:193-229 | the imperative handler produces exactly the Handlers.ResetPassword transition and keeps the store valid |
| Controller.AuthController.ChangePassword | app/Http/Controllers/Api/Auth/AuthController.php:231-265 | the imperative handler produces exactly the Handlers.ChangePassword transition and keeps the store valid |
| Controller.AuthController.ChangeProfile | app/Http/Controllers/Api/Auth/AuthController.php:266-308 | the imperative handler produces exactly the Handlers.ChangeProfile transition and keeps the store valid |
| Controller.RegisterAndVerify | app/Http/Controllers/Api/Auth/AuthController.php:30-47 | register followed by verifyOtp with the mailed code gives 200, 200 and leaves exactly one row: verified, holding the password's digest, with no pending code, and one token for it |
| Controller.RegisterVerifyLoginScenario | app/Http/Controllers/Api/Auth/AuthController.php:74-90 | after signing up, login with the password then with a wrong one give 200 and 401, and the token belongs to the new user |
| Properties.Handle | app/Http/Controllers/Api/Auth/AuthController.php:243 | routing any admissible request to its handler keeps the store valid; a changePassword or changeProfile request whose caller has no row is answered 401 with the store unchanged |
| Properties.HandleGrows | app/Http/Controllers/Api/Auth/AuthController.php:128 | no handler removes a row or turns a verified row unverified; mails and tokens are only appended |
| Properties.Run | app/Http/Controllers/Api/Auth/AuthController.php:20 | any sequence of requests keeps the store valid (unique non-blank emails, codes in range, tokens only for verified users) and only extends it |
| Properties.TokensOnlyForVerifiedUsers | app/Http/Controllers/Api/Auth/AuthController.php:83-90 | from the empty database, every token any sequence of requests mints belongs to an existing verified user, and no two users share a non-blank email |
| Properties.OnlyVerifyOtpVerifies | app/Http/Controllers/Api/Auth/AuthController.php:119-132 | a request that turns an unverified row verified is a successful verifyOtp, and returns a token for that row |
| Properties.VerifyOtpIsSingleUse | app/Http/Controllers/Api/Auth/AuthController.php:119-130 | after a successful verifyOtp, the same (email, otp) pair is refused with 400 and no change by verifyOtp and by resetPassword |
| Properties.ResetPasswordIsSingleUse | app/Http/Controllers/Api/Auth/AuthController.php:206-217 | after a successful resetPassword, the same pair is refused without change by resetPassword and with 400 by verifyOtp |
| Properties.NewOtpReplacesOld | app/Http/Controllers/Api/Auth/AuthController.php:170-172 | after forgotPassword on a known email, a code matches that email iff it is the new one, so verifyOtp succeeds with it and fails with any other |
| Properties.ResetReplacesCredential | app/Http/Controllers/Api/Auth/AuthController.php:215-217 | after a reset, login with the new password gives 200 if the row was verified and 403 if not (verified unchanged), and a different old password gives 401 |
| Properties.ChangePasswordReplacesCredential | app/Http/Controllers/Api/Auth/AuthController.php:245-253 | after a password change, login with the new password passes the credential check and the old one gives 401 |
| Properties.ForgotPasswordCodeLogsIn | app/Http/Controllers/Api/Auth/AuthController.php:170-177 | the code forgotPassword sends also works for verifyOtp: it verifies the row and returns a token for it, with no password asked |
| Properties.RegisterTwiceRejected | app/Http/Controllers/Api/Auth/AuthController.php:20 | once a form has created a row, the same form is refused with 422 and no change |
| Properties.ProfileEmailStaysUnique | app/Http/Controllers/Api/Auth/AuthController.php:271 | a profile change to a non-blank email held by another row gives 422 and no change; a blank one is written even when another row holds it |

## Left out

- Mail delivery: a `SendOTP` mail is only recorded as (address, pin), and the mail's body and transport are not modelled. A mailer failure is the `delivered` flag.
- Password hashing: `Hash::make` is modelled as a deterministic injective function. Salting, one-wayness and the cost factor are not modelled.
- Randomness of `mt_rand`: the code is any value in [1000, 9999], given as a parameter. Its distribution and predictability cannot be stated.
- Sanctum tokens: the random plain-text string is left out. A token is only (user id, serial), and token expiry and revocation are absent, as in the code.
- Validator internals: the RFC syntax check of the `email` rule is approximated as "an '@' with text on both sides". A `required` value is blank when it is made only of the characters PHP's `trim` strips; Unicode whitespace is not considered.
- Non-string request values: the `string` and `integer` type checks only appear as a field being absent (None). For the required fields this gives the same 422. For the optional fields a non-string value (an array or a number) reads as not supplied, so the model answers 200 where the `string` rule would answer 422. This applies to `location` and `phone_number` in register, where the row is created without them, and to all four fields of changeProfile.
- Middleware: the request middleware that trims strings and turns empty strings into null is not modelled. Blank values fail `required` as they would after it, but stored names, emails and passwords keep their surrounding spaces. A blank profile email is written as sent and answered 200; behind that middleware it would become null and the failed save would answer 500.
- Explicit null in changeProfile: a key sent with the value null counts as present for `has` and would write null. This model has no such input, so a supplied field always carries a string.
- Exceptions: the `try/catch` that turns any other exception (database failure, null column) into 500 is not modelled. Only a failing mailer is.
- Response bodies: JSON bodies and their messages are reduced to the status code and the token.
- Authentication of callers: the guard that resolves `$request->user()` is not part of this model. The two authenticated handlers take the caller id as a parameter. In `Properties.Handle`, an id with no row is answered 401 without change.
- Email comparison: emails compare exactly. A case-insensitive database collation is not modelled.
- The `User` model class (fillable fields, casts) is not part of this model. `verified => 0` at creation is taken as stored.
- Concurrency: handlers run one at a time, so two requests on the same row never interleave.
