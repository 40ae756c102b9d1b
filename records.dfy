/**
 * The records the authentication controller reads and writes: the users
 * table, the password digest, the personal access tokens it mints and the
 * one-time-passcode mails it sends, together with the invariant every
 * reachable store keeps and the `where(...)->first()` lookup on users.
 */
module Records {

  datatype Option<+T> = None | Some(value: T)

  /** Primary key of the users table; auto-increment keys start at 1. */
  type UserId = nat

  /**
   * `Hash::make` / `Hash::check`, modelled as an ideal deterministic hash:
   * a digest checks against exactly the password it was made from.
   */
  datatype Digest = Digest(secret: string)

  function Hash(password: string): (d: Digest)
  {
    Digest(password)
  }

  predicate Check(password: string, digest: Digest)
  {
    digest == Hash(password)
  }

  /**
   * `Hash::check(p, Hash::make(p))` holds, and a digest made from one
   * password does not check against any other.
   */
  lemma CheckAcceptsExactlyItsPassword(password: string, other: string)
    ensures Check(password, Hash(password))
    ensures Check(other, Hash(password)) <==> other == password
  {
  }

  /** `mt_rand(1000, 9999)`: the range every one-time passcode is drawn from. */
  const MinOtp: int := 1000
  const MaxOtp: int := 9999

  predicate InOtpRange(code: int)
  {
    MinOtp <= code <= MaxOtp
  }

  /** One row of the users table. */
  datatype User = User(
    name: string,
    email: string,
    password: Digest,
    location: Option<string>,
    phone: Option<string>,
    verified: bool,
    otp: Option<int>)

  /** A personal access token bound to the user it was minted for. */
  datatype Token = Token(user: UserId, serial: nat)

  /** A `SendOTP` mail: the address and the pin it carries. */
  datatype Mail = Mail(to: string, pin: int)

  /** HTTP status and, for login and OTP verification, the bearer token. */
  datatype Response = Response(status: int, token: Option<Token>)

  const Ok: int := 200
  const BadRequest: int := 400
  const Unauthorized: int := 401
  const Forbidden: int := 403
  const NotFound: int := 404
  const Unprocessable: int := 422
  const ServerError: int := 500

  /** Everything the controller changes: users, mails sent, tokens minted. */
  datatype Store = Store(
    users: map<UserId, User>,
    nextId: UserId,
    outbox: seq<Mail>,
    tokens: seq<Token>)

  /** The empty database. */
  function Empty(): (s: Store)
    ensures Valid(s) && s.users == map[] && s.outbox == [] && s.tokens == []
  {
    Store(map[], 1, [], [])
  }

  /** The characters PHP's `trim` strips: space, tab, newline, return, NUL and vertical tab. */
  predicate IsTrimmed(c: char)
  {
    c == ' ' || c == '\t' || c == '\n' || c == '\r' || c == '\0' || c == 11 as char
  }

  /** Nothing is left of `s` once it is trimmed. */
  predicate Blank(s: string)
  {
    forall i :: 0 <= i < |s| ==> IsTrimmed(s[i])
  }

  /**
   * No two rows of the table share an email address, blank addresses
   * aside: a profile change may write a blank email to several rows.
   */
  ghost predicate UniqueEmails(users: map<UserId, User>)
  {
    forall a, b :: a in users && b in users && a != b && !Blank(users[a].email) ==>
      users[a].email != users[b].email
  }

  /**
   * The invariant of every reachable store: keys below the next
   * auto-increment value, unique non-blank emails, pending passcodes and mailed pins
   * in range, and every minted token bound to an existing verified user
   * and numbered by its position.
   */
  ghost predicate Valid(s: Store)
  {
    && 1 <= s.nextId
    && (forall id :: id in s.users ==> 1 <= id < s.nextId)
    && UniqueEmails(s.users)
    && (forall id :: id in s.users && s.users[id].otp.Some? ==> InOtpRange(s.users[id].otp.value))
    && (forall i :: 0 <= i < |s.outbox| ==> InOtpRange(s.outbox[i].pin))
    && (forall i :: 0 <= i < |s.tokens| ==>
          s.tokens[i].user in s.users && s.users[s.tokens[i].user].verified)
    && (forall i :: 0 <= i < |s.tokens| ==> s.tokens[i].serial == i)
  }

  /** Some row holds `email`. */
  predicate EmailTaken(users: map<UserId, User>, email: string)
  {
    exists id :: id in users && users[id].email == email
  }

  /** Some row other than `self` holds `email` (`unique:users,email,<self>`). */
  predicate TakenByOther(users: map<UserId, User>, email: string, self: UserId)
  {
    exists id :: id in users && id != self && users[id].email == email
  }

  /** Some row holds `email` together with the pending passcode `code`. */
  predicate OtpMatches(users: map<UserId, User>, email: string, code: int)
  {
    exists id :: id in users && users[id].email == email && users[id].otp == Some(code)
  }

  /**
   * `User::where(...)->first()`: the lowest key in [from, to) whose row
   * satisfies `p`, or None when no row there does.
   */
  function FirstWhere(users: map<UserId, User>, p: User -> bool, from: nat, to: nat): (r: Option<UserId>)
    decreases to - from
    ensures r.Some? ==> from <= r.value < to && r.value in users && p(users[r.value])
    ensures r.Some? ==> forall id :: from <= id < r.value && id in users ==> !p(users[id])
    ensures r.None? ==> forall id :: from <= id < to && id in users ==> !p(users[id])
  {
    if from >= to then None
    else if from in users && p(users[from]) then Some(from)
    else FirstWhere(users, p, from + 1, to)
  }

  /** `User::where('email', email)->first()`. */
  function FindByEmail(s: Store, email: string): (r: Option<UserId>)
    requires Valid(s)
    ensures r.Some? <==> EmailTaken(s.users, email)
    ensures r.Some? ==> r.value in s.users && s.users[r.value].email == email
  {
    FirstWhere(s.users, (u: User) => u.email == email, 1, s.nextId)
  }

  /** `User::where('email', email)->where('otp', code)->first()`. */
  function FindByEmailAndOtp(s: Store, email: string, code: int): (r: Option<UserId>)
    requires Valid(s)
    ensures r.Some? <==> OtpMatches(s.users, email, code)
    ensures r.Some? ==> r.value in s.users && s.users[r.value].email == email
                        && s.users[r.value].otp == Some(code)
  {
    FirstWhere(s.users, (u: User) => u.email == email && u.otp == Some(code), 1, s.nextId)
  }

  /**
   * Saving one existing row keeps the store valid when the row keeps its
   * email or takes a blank one or one no other row holds, a pending code in range, and its verified
   * flag if it had one.
   */
  lemma SaveRowKeepsValid(s: Store, id: UserId, u: User)
    requires Valid(s) && id in s.users
    requires u.email == s.users[id].email || Blank(u.email) || !TakenByOther(s.users, u.email, id)
    requires u.otp.Some? ==> InOtpRange(u.otp.value)
    requires s.users[id].verified ==> u.verified
    ensures Valid(s.(users := s.users[id := u]))
  {
  }
}
