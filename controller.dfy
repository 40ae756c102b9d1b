/**
 * The controller itself: the users table, the mails sent and the tokens
 * minted are fields, and each handler validates its form, looks the row up,
 * assigns the row's fields one after another and saves it, as the PHP
 * handlers do. Every handler is proved to do exactly what the matching
 * function of module Handlers describes.
 */
module Controller {
  import opened Records
  import opened Validation
  import Handlers

  class AuthController {
    var users: map<UserId, User>
    var nextId: UserId
    var outbox: seq<Mail>
    var tokens: seq<Token>

    /** The whole store as a value. */
    function State(): (s: Store)
      reads this
    {
      Store(users, nextId, outbox, tokens)
    }

    ghost predicate Valid()
      reads this
    {
      Records.Valid(State())
    }

    constructor ()
      ensures Valid() && State() == Empty()
    {
      users, nextId, outbox, tokens := map[], 1, [], [];
    }

    /** `createToken('auth_token')`: a new token row bound to `id`. */
    method CreateToken(id: UserId) returns (token: Token)
      modifies this
      ensures token == Token(id, |old(tokens)|) && tokens == old(tokens) + [token]
      ensures users == old(users) && nextId == old(nextId) && outbox == old(outbox)
    {
      token := Token(id, |tokens|);
      tokens := tokens + [token];
    }

    /** `register`, with `draw` the value `mt_rand` returned and `delivered` the mailer's outcome. */
    method Register(f: RegisterForm, draw: int, delivered: bool) returns (resp: Response)
      requires Valid() && InOtpRange(draw)
      modifies this
      ensures Valid()
      ensures Handlers.Transition(State(), resp) == Handlers.Register(old(State()), f, draw, delivered)
    {
      if !RegisterValid(users, f) {
        return Response(Unprocessable, None);
      }
      ghost var spec := Handlers.Register(State(), f, draw, delivered);
      var id := nextId;
      users := users[id := User(f.name.value, f.email.value, Hash(f.password.value),
                                f.location, f.phoneNumber, false, None)];
      nextId := nextId + 1;
      var user := users[id];
      user := user.(otp := Some(draw));
      users := users[id := user];
      if !delivered {
        assert State() == spec.after;
        return Response(ServerError, None);
      }
      outbox := outbox + [Mail(user.email, draw)];
      resp := Response(Ok, None);
      assert State() == spec.after;
    }

    method Login(f: LoginForm) returns (resp: Response)
      requires Valid()
      modifies this
      ensures Valid()
      ensures Handlers.Transition(State(), resp) == Handlers.Login(old(State()), f)
    {
      if !LoginValid(f) {
        return Response(Unprocessable, None);
      }
      var found := FindByEmail(State(), f.email.value);
      if found.None? || !Check(f.password.value, users[found.value].password) {
        return Response(Unauthorized, None);
      }
      if !users[found.value].verified {
        return Response(Forbidden, None);
      }
      var token := CreateToken(found.value);
      resp := Response(Ok, Some(token));
    }

    method VerifyOtp(f: VerifyOtpForm) returns (resp: Response)
      requires Valid()
      modifies this
      ensures Valid()
      ensures Handlers.Transition(State(), resp) == Handlers.VerifyOtp(old(State()), f)
    {
      if !VerifyOtpValid(f) {
        return Response(Unprocessable, None);
      }
      var found := FindByEmailAndOtp(State(), f.email.value, f.otp.value);
      if found.None? {
        return Response(BadRequest, None);
      }
      var id := found.value;
      var user := users[id];
      user := user.(verified := true);
      user := user.(otp := None);
      users := users[id := user];
      var token := CreateToken(id);
      resp := Response(Ok, Some(token));
    }

    /** `forgotPassword`, with `draw` and `delivered` as for Register. */
    method ForgotPassword(f: ForgotPasswordForm, draw: int, delivered: bool) returns (resp: Response)
      requires Valid() && InOtpRange(draw)
      modifies this
      ensures Valid()
      ensures Handlers.Transition(State(), resp) == Handlers.ForgotPassword(old(State()), f, draw, delivered)
    {
      if !ForgotPasswordValid(f) {
        return Response(Unprocessable, None);
      }
      var found := FindByEmail(State(), f.email.value);
      if found.None? {
        return Response(NotFound, None);
      }
      var id := found.value;
      var user := users[id];
      user := user.(otp := Some(draw));
      users := users[id := user];
      if !delivered {
        return Response(ServerError, None);
      }
      outbox := outbox + [Mail(user.email, draw)];
      resp := Response(Ok, None);
    }

    method ResetPassword(f: ResetPasswordForm) returns (resp: Response)
      requires Valid()
      modifies this
      ensures Valid()
      ensures Handlers.Transition(State(), resp) == Handlers.ResetPassword(old(State()), f)
    {
      if !ResetPasswordValid(f) {
        return Response(Unprocessable, None);
      }
      var found := FindByEmailAndOtp(State(), f.email.value, f.otp.value);
      if found.None? {
        return Response(BadRequest, None);
      }
      var id := found.value;
      var user := users[id];
      user := user.(password := Hash(f.password.value));
      user := user.(otp := None);
      users := users[id := user];
      resp := Response(Ok, None);
    }

    /** `changePassword` for the authenticated user `caller`. */
    method ChangePassword(caller: UserId, f: ChangePasswordForm) returns (resp: Response)
      requires Valid() && caller in users
      modifies this
      ensures Valid()
      ensures Handlers.Transition(State(), resp) == Handlers.ChangePassword(old(State()), caller, f)
    {
      if !ChangePasswordValid(f) {
        return Response(Unprocessable, None);
      }
      var user := users[caller];
      if !Check(f.currentPassword.value, user.password) {
        return Response(Unauthorized, None);
      }
      user := user.(password := Hash(f.newPassword.value));
      users := users[caller := user];
      resp := Response(Ok, None);
    }

    /** `changeProfile` for the authenticated user `caller`. */
    method ChangeProfile(caller: UserId, f: ChangeProfileForm) returns (resp: Response)
      requires Valid() && caller in users
      modifies this
      ensures Valid()
      ensures Handlers.Transition(State(), resp) == Handlers.ChangeProfile(old(State()), caller, f)
    {
      if !ChangeProfileValid(users, caller, f) {
        return Response(Unprocessable, None);
      }
      ghost var spec := Handlers.ChangeProfile(State(), caller, f);
      var user := users[caller];
      if f.name.Some? {
        user := user.(name := f.name.value);
      }
      if f.email.Some? {
        user := user.(email := f.email.value);
      }
      if f.location.Some? {
        user := user.(location := f.location);
      }
      if f.phoneNumber.Some? {
        user := user.(phone := f.phoneNumber);
      }
      users := users[caller := user];
      resp := Response(Ok, None);
      assert State() == spec.after;
    }
  }

  /**
   * A client of the controller signs up: register as Alice, then verify
   * with the code the mail carried. The account ends up verified, with
   * the password's digest and no pending code.
   */
  method RegisterAndVerify(code: int) returns (c: AuthController, statuses: seq<int>)
    requires InOtpRange(code)
    ensures fresh(c) && c.Valid() && c.tokens == [Token(1, 0)]
    ensures c.users == map[1 := User("Alice", "a@x.com", Hash("secret123"), None, None, true, None)]
    ensures statuses == [Ok, Ok]
  {
    c := new AuthController();
    var email, password := "a@x.com", "secret123";
    var form := RegisterForm(Some("Alice"), Some(email), Some(password), Some(password), None, None);
    assert RegisterValid(map[], form) by {
      assert email[1] == '@' && !IsTrimmed(email[0]);
      assert !IsTrimmed("Alice"[0]) && !IsTrimmed(password[0]);
    }
    var r1 := c.Register(form, code, true);
    assert c.users == map[1 := User("Alice", email, Hash(password), None, None, false, Some(code))];
    var r2 := c.VerifyOtp(VerifyOtpForm(Some(email), Some(code)));
    statuses := [r1.status, r2.status];
  }

  /**
   * The signed-up client logs in with the right password and then with a
   * wrong one. The contracts of the handlers alone fix every status.
   */
  method RegisterVerifyLoginScenario(code: int) returns (statuses: seq<int>, token: Option<Token>)
    requires InOtpRange(code)
    ensures statuses == [Ok, Ok, Ok, Unauthorized]
    ensures token.Some? && token.value.user == 1
  {
    var c, signUp := RegisterAndVerify(code);
    var email, password := "a@x.com", "secret123";
    assert LoginValid(LoginForm(Some(email), Some(password))) && LoginValid(LoginForm(Some(email), Some("wrong"))) by {
      assert email[1] == '@' && !IsTrimmed(email[0]);
      assert !IsTrimmed(password[0]) && !IsTrimmed("wrong"[0]);
    }
    assert c.users[1].email == email && Check(password, c.users[1].password);
    assert Handlers.CanLogIn(c.users, email, password);
    var r3 := c.Login(LoginForm(Some(email), Some(password)));
    assert !Handlers.CredentialsMatch(c.users, email, "wrong");
    var r4 := c.Login(LoginForm(Some(email), Some("wrong")));
    statuses, token := signUp + [r3.status, r4.status], r3.token;
  }
}
