/**
 * The email-and-password account routes: register, login, and the password
 * reset pair (forgot-password mails a link carrying a random token and keeps
 * only its SHA-256 with an expiry one hour ahead; reset-password accepts the
 * token while it is unexpired, sets the new password and clears the token).
 *
 * bcrypt, SHA-256, the random token, the clock and the mailer are
 * parameters: `bcryptHash`, `compare`, `sha256`, `rawToken`, `nowMs` (epoch
 * milliseconds) and `send(to, link)`, which answers whether the mail went out.
 */
module AuthRoutes {
  import opened Wrappers
  import opened Text
  import opened Models
  import Db

  // -------------------------------------------------------------- register

  /** The responses of `register`: 201, the three 400s, a 400 for a schema violation, and 500. */
  datatype RegisterResult =
    | Registered(id: Id)
    | RegisterMissingFields
    | EmailInUse
    | UsernameTaken
    | RegisterValidationError
    | RegisterServerError

  /** What the route decides before saving: the account to save, or the response. */
  datatype RegisterChecked = NewAccount(user: User) | Refuse(response: RegisterResult)

  /** The body's `gender`, checked against the schema's enum; an absent one is no gender. */
  function GenderOf(gender: Option<string>): (g: Option<Option<Gender>>)
    ensures g.None? <==> gender.Some? && ParseGender(gender.value).None?
  {
    if gender.None? then Some(None)
    else if ParseGender(gender.value).None? then None
    else Some(ParseGender(gender.value))
  }

  /** Some account already has the (trimmed) mobile number: the sparse unique index refuses it. */
  predicate MobileInUse(users: map<Id, User>, mobile: Option<string>) {
    mobile.Some? && exists id :: id in users && users[id].mobileNumber == mobile
  }

  /** The route's own checks pass: the three fields are given, and neither the email nor the username is taken. */
  predicate RouteChecksPass(users: map<Id, User>, nextId: Id,
                            username: Option<string>, email: Option<string>, password: Option<string>) {
    && Given(username) && Given(email) && Given(password)
    && Db.FindUserByEmail(users, email.value, nextId).None?
    && NormalizeUsername(username.value) !in Usernames(users)
  }

  /**
   * The checks of `register`, in the route's order: the three required
   * fields, the email lookup, the username lookup, then `save`, which fails
   * validation on a gender outside the enum or a username or email that
   * trims to nothing, and fails with a duplicate-key error (500) on a mobile
   * number already in use.
   */
  function RegisterCheck(users: map<Id, User>, nextId: Id,
                         username: Option<string>, email: Option<string>, password: Option<string>,
                         mobileNumber: Option<string>, gender: Option<string>,
                         bcryptHash: string -> string): (c: RegisterChecked)
    ensures c == Refuse(RegisterMissingFields) <==> !Given(username) || !Given(email) || !Given(password)
    ensures c == Refuse(EmailInUse) <==>
      Given(username) && Given(email) && Given(password) && Db.FindUserByEmail(users, email.value, nextId).Some?
    ensures c == Refuse(UsernameTaken) <==>
      && Given(username) && Given(email) && Given(password)
      && Db.FindUserByEmail(users, email.value, nextId).None?
      && NormalizeUsername(username.value) in Usernames(users)
    ensures c == Refuse(RegisterValidationError) <==>
      && RouteChecksPass(users, nextId, username, email, password)
      && (GenderOf(gender).None? || NormalizeUsername(username.value) == "" || NormalizeEmail(email.value) == "")
    ensures c == Refuse(RegisterServerError) <==>
      && RouteChecksPass(users, nextId, username, email, password)
      && GenderOf(gender).Some? && NormalizeUsername(username.value) != "" && NormalizeEmail(email.value) != ""
      && MobileInUse(users, TrimMobile(mobileNumber))
    ensures c.NewAccount? <==>
      && RouteChecksPass(users, nextId, username, email, password)
      && GenderOf(gender).Some? && NormalizeUsername(username.value) != "" && NormalizeEmail(email.value) != ""
      && !MobileInUse(users, TrimMobile(mobileNumber))
    ensures c.Refuse? ==> !c.response.Registered?
    ensures c.NewAccount? ==>
      && c.user.username == NormalizeUsername(username.value) && c.user.username != ""
      && c.user.email == NormalizeEmail(email.value) && c.user.email != ""
      && c.user.password == Some(bcryptHash(password.value))
      && c.user.role == UserRole && !c.user.isPhoneVerified
      && c.user.resetPasswordToken.None?
      && Some(c.user.gender) == GenderOf(gender) && c.user.mobileNumber == TrimMobile(mobileNumber)
    ensures c.NewAccount? ==>
      && c.user.username !in Usernames(users)
      && Db.FindUserByEmail(users, email.value, nextId).None?
      && !MobileInUse(users, c.user.mobileNumber)
  {
    if !Given(username) || !Given(email) || !Given(password) then Refuse(RegisterMissingFields)
    else if Db.FindUserByEmail(users, email.value, nextId).Some? then Refuse(EmailInUse)
    else if NormalizeUsername(username.value) in Usernames(users) then Refuse(UsernameTaken)
    else
      var g := GenderOf(gender);
      if g.None? then Refuse(RegisterValidationError)
      else
        var user := NewUser(username.value, email.value, PreSave(password, true, bcryptHash),
                            mobileNumber, false, g.value, UserRole);
        if !UserValid(user) then Refuse(RegisterValidationError)
        else if MobileInUse(users, user.mobileNumber) then Refuse(RegisterServerError)
        else NewAccount(user)
  }

  /** An account whose username, email and mobile number no account holds breaks no unique index. */
  lemma FreshAccountFits(users: map<Id, User>, u: User)
    requires u.username !in Usernames(users)
    requires forall id :: id in users ==> users[id].email != u.email
    requires !MobileInUse(users, u.mobileNumber)
    ensures UniqueAgainst(users, u)
  {
  }

  /** `POST /register`. */
  method Register(db: Db.Store, username: Option<string>, email: Option<string>, password: Option<string>,
                  mobileNumber: Option<string>, gender: Option<string>, bcryptHash: string -> string)
    returns (r: RegisterResult)
    requires db.Valid()
    modifies db`users, db`nextId
    ensures db.Valid()
    ensures var c := RegisterCheck(old(db.users), old(db.nextId), username, email, password, mobileNumber, gender, bcryptHash);
      && (c.Refuse? ==> r == c.response && db.users == old(db.users) && db.nextId == old(db.nextId))
      && (c.NewAccount? ==> r == Registered(old(db.nextId)) && db.nextId == old(db.nextId) + 1
                            && old(db.nextId) !in old(db.users)
                            && db.users == old(db.users)[old(db.nextId) := c.user])
  {
    var c := RegisterCheck(db.users, db.nextId, username, email, password, mobileNumber, gender, bcryptHash);
    if c.Refuse? {
      return c.response;
    }
    FreshAccountFits(db.users, c.user);
    var id := db.AddUser(c.user);
    r := Registered(id);
  }

  // ----------------------------------------------------------------- login

  /** The responses of `login`: the token with role and username, and the 400s. */
  datatype LoginResult =
    | LoggedIn(id: Id, role: Role, username: string)
    | LoginMissingFields
    | InvalidCredentials
    | UsePhoneSignIn
    | UseGoogleSignIn

  /** `POST /login`; `compare(plain, hash)` is `bcrypt.compare`. */
  function Login(users: map<Id, User>, nextId: Id, email: Option<string>, password: Option<string>,
                 compare: (string, string) -> bool): (r: LoginResult)
    ensures r == LoginMissingFields <==> !Given(email) || !Given(password)
    ensures r == InvalidCredentials <==>
      && Given(email) && Given(password)
      && var found := Db.FindUserByEmail(users, email.value, nextId);
         found.None? || (Given(users[found.value].password) && !compare(password.value, users[found.value].password.value))
    ensures r == UsePhoneSignIn <==>
      && Given(email) && Given(password)
      && var found := Db.FindUserByEmail(users, email.value, nextId);
         found.Some? && !Given(users[found.value].password)
         && Given(users[found.value].mobileNumber) && users[found.value].isPhoneVerified
    ensures r == UseGoogleSignIn <==>
      && Given(email) && Given(password)
      && var found := Db.FindUserByEmail(users, email.value, nextId);
         found.Some? && !Given(users[found.value].password)
         && !(Given(users[found.value].mobileNumber) && users[found.value].isPhoneVerified)
    ensures r.LoggedIn? ==>
      && Db.FindUserByEmail(users, email.value, nextId) == Some(r.id)
      && Given(users[r.id].password) && compare(password.value, users[r.id].password.value)
      && r.role == users[r.id].role && r.username == users[r.id].username
  {
    if !Given(email) || !Given(password) then LoginMissingFields
    else
      match Db.FindUserByEmail(users, email.value, nextId)
      case None => InvalidCredentials
      case Some(id) =>
        var user := users[id];
        if !Given(user.password) then
          if Given(user.mobileNumber) && user.isPhoneVerified then UsePhoneSignIn else UseGoogleSignIn
        else if !compare(password.value, user.password.value) then InvalidCredentials
        else LoggedIn(id, user.role, user.username)
  }

  /**
   * Logging in with an account's email and the password its hash was made
   * from succeeds with that account, since no other account has the email.
   */
  lemma LoginFindsAccount(users: map<Id, User>, nextId: Id, id: Id, email: Option<string>, password: Option<string>,
                          bcryptHash: string -> string, compare: (string, string) -> bool)
    requires UsersUnique(users) && Db.KeysBelow(users, nextId)
    requires Given(email) && Given(password)
    requires id in users && users[id].email == NormalizeEmail(email.value)
    requires users[id].password == Some(bcryptHash(password.value)) && bcryptHash(password.value) != ""
    requires compare(password.value, bcryptHash(password.value))
    ensures Login(users, nextId, email, password, compare) == LoggedIn(id, users[id].role, users[id].username)
  {
    Db.FindUserByEmailFinds(users, email.value, nextId, id);
  }

  /**
   * Registering and then logging in with the same email and password
   * succeeds, when `compare` recognises what `bcryptHash` produces and a
   * hash is never empty.
   */
  lemma RegisterThenLogin(users: map<Id, User>, nextId: Id,
                          username: Option<string>, email: Option<string>, password: Option<string>,
                          mobileNumber: Option<string>, gender: Option<string>,
                          bcryptHash: string -> string, compare: (string, string) -> bool, u: User)
    requires Db.KeysBelow(users, nextId) && UsersUnique(users)
    requires RegisterCheck(users, nextId, username, email, password, mobileNumber, gender, bcryptHash) == NewAccount(u)
    requires forall p :: compare(p, bcryptHash(p)) && bcryptHash(p) != ""
    ensures Login(users[nextId := u], nextId + 1, email, password, compare) == LoggedIn(nextId, UserRole, u.username)
  {
    FreshAccountFits(users, u);
    SavedAccountLogsIn(users, nextId, u, email, password, bcryptHash, compare);
  }

  /** The step of `RegisterThenLogin` after the checks: the saved account is found by its email. */
  lemma SavedAccountLogsIn(users: map<Id, User>, nextId: Id, u: User, email: Option<string>, password: Option<string>,
                           bcryptHash: string -> string, compare: (string, string) -> bool)
    requires Db.KeysBelow(users, nextId) && UsersUnique(users) && UniqueAgainst(users, u)
    requires Given(email) && Given(password)
    requires u.email == NormalizeEmail(email.value) && u.password == Some(bcryptHash(password.value)) && u.role == UserRole
    requires compare(password.value, bcryptHash(password.value)) && bcryptHash(password.value) != ""
    ensures Login(users[nextId := u], nextId + 1, email, password, compare) == LoggedIn(nextId, UserRole, u.username)
  {
    SavedAccountState(users, nextId, u);
    LoginFindsAccount(users[nextId := u], nextId + 1, nextId, email, password, bcryptHash, compare);
  }

  /** The store after saving `u` under the next id: indexes unique, ids below the counter, `u` in place. */
  lemma SavedAccountState(users: map<Id, User>, nextId: Id, u: User)
    requires Db.KeysBelow(users, nextId) && UsersUnique(users) && UniqueAgainst(users, u)
    ensures UsersUnique(users[nextId := u]) && Db.KeysBelow(users[nextId := u], nextId + 1)
    ensures nextId in users[nextId := u] && users[nextId := u][nextId] == u
  {
    Db.InsertKeepsKeysBelow(users, nextId, u);
    InsertKeepsUnique(users, nextId, u);
  }

  /** An account made by Google sign-in, which has no password, is pointed to Google sign-in. */
  lemma PasswordlessAccountGetsHint(users: map<Id, User>, nextId: Id, email: Option<string>, password: Option<string>,
                                    compare: (string, string) -> bool)
    requires Given(email) && Given(password)
    requires Db.FindUserByEmail(users, email.value, nextId).Some?
    requires var u := users[Db.FindUserByEmail(users, email.value, nextId).value];
      u.password.None? && u.mobileNumber.None?
    ensures Login(users, nextId, email, password, compare) == UseGoogleSignIn
  {
  }

  // ------------------------------------------------------- forgot-password

  /** The lifetime of a reset token: one hour, in milliseconds. */
  const ResetWindowMs: int := 3600000

  /** The link mailed to the user; it carries the raw token, which is never stored. */
  function ResetLink(rawToken: string): string {
    "http://localhost:3000/reset-password/" + rawToken
  }

  /**
   * The responses of `forgot-password`.  An unknown email gets the same
   * status as a sent link, but with a different message.
   */
  datatype ForgotResult = ForgotMissingEmail | ResetLinkSent | UnknownEmailNotice | ResetEmailFailed

  function ForgotStatus(r: ForgotResult): int {
    match r
    case ForgotMissingEmail => 400
    case ResetLinkSent => 200
    case UnknownEmailNotice => 200
    case ResetEmailFailed => 500
  }

  /** `forgot-password` over the users: the collection afterwards, and the response. */
  function ForgotPasswordSpec(users: map<Id, User>, nextId: Id, email: Option<string>, rawToken: string,
                              sha256: string -> string, nowMs: int, send: (string, string) -> bool)
    : (r: (map<Id, User>, ForgotResult))
    ensures r.1 == ForgotMissingEmail <==> !Given(email)
    ensures r.1 == UnknownEmailNotice <==> Given(email) && Db.FindUserByEmail(users, email.value, nextId).None?
    ensures r.1 == ForgotMissingEmail || r.1 == UnknownEmailNotice ==> r.0 == users
    ensures r.1 == ResetLinkSent || r.1 == ResetEmailFailed ==>
      && Given(email)
      && var id := Db.FindUserByEmail(users, email.value, nextId).value;
      && (r.1 == ResetLinkSent <==> send(users[id].email, ResetLink(rawToken)))
      && r.0 == users[id := users[id].(
           resetPasswordToken := if r.1 == ResetLinkSent then Some(sha256(rawToken)) else None,
           resetPasswordExpires := if r.1 == ResetLinkSent then Some(nowMs + ResetWindowMs) else None)]
  {
    if !Given(email) then (users, ForgotMissingEmail)
    else
      match Db.FindUserByEmail(users, email.value, nextId)
      case None => (users, UnknownEmailNotice)
      case Some(id) =>
        if send(users[id].email, ResetLink(rawToken)) then
          (WithResetFields(users, id, Some(sha256(rawToken)), Some(nowMs + ResetWindowMs)), ResetLinkSent)
        else
          (WithResetFields(users, id, None, None), ResetEmailFailed)
  }

  /** The users with the two reset fields of account `id` set to `token` and `expires`. */
  function WithResetFields(users: map<Id, User>, id: Id, token: Option<string>, expires: Option<int>): (r: map<Id, User>)
    requires id in users
    ensures r.Keys == users.Keys && r[id].resetPasswordToken == token && r[id].resetPasswordExpires == expires
    ensures forall k :: k in users && k != id ==> r[k] == users[k]
  {
    users[id := users[id].(resetPasswordToken := token, resetPasswordExpires := expires)]
  }

  /** Saving the reset fields twice leaves only the second save. */
  lemma ResetFieldsTwice(users: map<Id, User>, id: Id, t1: Option<string>, e1: Option<int>, t2: Option<string>, e2: Option<int>)
    requires id in users
    ensures WithResetFields(WithResetFields(users, id, t1, e1), id, t2, e2) == WithResetFields(users, id, t2, e2)
  {
  }

  /** Sets the two reset fields of user `id` and saves it. */
  method SaveResetFields(db: Db.Store, id: Id, token: Option<string>, expires: Option<int>)
    requires id in db.users && db.Valid()
    modifies db`users
    ensures db.Valid()
    ensures db.users == WithResetFields(old(db.users), id, token, expires)
  {
    var user := db.users[id].(resetPasswordToken := token, resetPasswordExpires := expires);
    ReplaceKeepsUnique(db.users, id, user);
    db.users := db.users[id := user];
  }

  /**
   * `POST /forgot-password`: the token's hash and expiry are saved before the
   * mail is sent, and cleared and saved again when sending fails.
   */
  method ForgotPassword(db: Db.Store, email: Option<string>, rawToken: string,
                        sha256: string -> string, nowMs: int, send: (string, string) -> bool)
    returns (r: ForgotResult)
    requires db.Valid()
    modifies db`users
    ensures db.Valid()
    ensures (db.users, r) == ForgotPasswordSpec(old(db.users), db.nextId, email, rawToken, sha256, nowMs, send)
  {
    if !Given(email) {
      return ForgotMissingEmail;
    }
    var found := Db.FindUserByEmail(db.users, email.value, db.nextId);
    if found.None? {
      return UnknownEmailNotice;
    }
    var id := found.value;
    var before := db.users;
    SaveResetFields(db, id, Some(sha256(rawToken)), Some(nowMs + ResetWindowMs));
    var emailSent := send(before[id].email, ResetLink(rawToken));
    if emailSent {
      r := ResetLinkSent;
    } else {
      SaveResetFields(db, id, None, None);
      ResetFieldsTwice(before, id, Some(sha256(rawToken)), Some(nowMs + ResetWindowMs), None, None);
      r := ResetEmailFailed;
    }
  }

  // -------------------------------------------------------- reset-password

  datatype ResetResult = ResetMissingFields | ResetTokenInvalid | PasswordReset

  /** The account holds the token's hash and the expiry is strictly later than now. */
  predicate HoldsToken(u: User, hashedToken: string, nowMs: int) {
    u.resetPasswordToken == Some(hashedToken) && u.resetPasswordExpires.Some? && u.resetPasswordExpires.value > nowMs
  }

  /** `findOne({ resetPasswordToken: hash, resetPasswordExpires: { $gt: now } })`. */
  function FindByResetToken(users: map<Id, User>, hashedToken: string, nowMs: int, nextId: Id): (r: Option<Id>)
    ensures r.Some? ==> r.value in users && HoldsToken(users[r.value], hashedToken, nowMs)
    ensures r.None? && Db.KeysBelow(users, nextId) ==> forall id :: id in users ==> !HoldsToken(users[id], hashedToken, nowMs)
  {
    Db.FindFirst(users, (u: User) => HoldsToken(u, hashedToken, nowMs), nextId)
  }

  /** The account after a reset: the new password (hashed on save) and no token. */
  function AfterReset(u: User, newPassword: string, bcryptHash: string -> string): (v: User)
    requires newPassword != ""
    ensures v.password == Some(bcryptHash(newPassword))
    ensures v.resetPasswordToken.None? && v.resetPasswordExpires.None?
    ensures v == u.(password := v.password, resetPasswordToken := None, resetPasswordExpires := None)
  {
    u.(password := PreSave(Some(newPassword), true, bcryptHash), resetPasswordToken := None, resetPasswordExpires := None)
  }

  /** `reset-password` over the users: the collection afterwards, and the response. */
  function ResetPasswordSpec(users: map<Id, User>, nextId: Id, newPassword: Option<string>, token: string,
                             sha256: string -> string, nowMs: int, bcryptHash: string -> string)
    : (r: (map<Id, User>, ResetResult))
    ensures r.1 == ResetMissingFields <==> !Given(newPassword) || token == ""
    ensures r.1 == ResetTokenInvalid <==>
      Given(newPassword) && token != "" && FindByResetToken(users, sha256(token), nowMs, nextId).None?
    ensures r.1 != PasswordReset ==> r.0 == users
    ensures r.1 == PasswordReset ==>
      && Given(newPassword)
      && var id := FindByResetToken(users, sha256(token), nowMs, nextId).value;
         r.0 == users[id := AfterReset(users[id], newPassword.value, bcryptHash)]
  {
    if !Given(newPassword) || token == "" then (users, ResetMissingFields)
    else
      match FindByResetToken(users, sha256(token), nowMs, nextId)
      case None => (users, ResetTokenInvalid)
      case Some(id) => (users[id := AfterReset(users[id], newPassword.value, bcryptHash)], PasswordReset)
  }

  /** `POST /reset-password/:token`. */
  method ResetPassword(db: Db.Store, newPassword: Option<string>, token: string,
                       sha256: string -> string, nowMs: int, bcryptHash: string -> string)
    returns (r: ResetResult)
    requires db.Valid()
    modifies db`users
    ensures db.Valid()
    ensures (db.users, r) == ResetPasswordSpec(old(db.users), db.nextId, newPassword, token, sha256, nowMs, bcryptHash)
  {
    if !Given(newPassword) || token == "" {
      return ResetMissingFields;
    }
    var hashedToken := sha256(token);
    var found := FindByResetToken(db.users, hashedToken, nowMs, db.nextId);
    if found.None? {
      return ResetTokenInvalid;
    }
    var user := db.users[found.value];
    user := user.(password := Some(newPassword.value), resetPasswordToken := None, resetPasswordExpires := None);
    user := user.(password := PreSave(user.password, true, bcryptHash));
    ReplaceKeepsUnique(db.users, found.value, user);
    db.users := db.users[found.value := user];
    r := PasswordReset;
  }

  /** No account other than `owner` holds the hash `h`. */
  predicate OnlyHolder(users: map<Id, User>, owner: Id, h: string) {
    forall id :: id in users && id != owner ==> users[id].resetPasswordToken != Some(h)
  }

  /**
   * A token works once: after a successful reset, presenting it again is
   * refused, when no other account holds the same hash.
   */
  lemma ResetTokenSingleUse(users: map<Id, User>, nextId: Id, newPassword: Option<string>, token: string,
                            sha256: string -> string, nowMs: int, bcryptHash: string -> string,
                            again: Option<string>, laterMs: int)
    requires Db.KeysBelow(users, nextId)
    requires ResetPasswordSpec(users, nextId, newPassword, token, sha256, nowMs, bcryptHash).1 == PasswordReset
    requires OnlyHolder(users, FindByResetToken(users, sha256(token), nowMs, nextId).value, sha256(token))
    requires Given(again)
    ensures var after := ResetPasswordSpec(users, nextId, newPassword, token, sha256, nowMs, bcryptHash).0;
      ResetPasswordSpec(after, nextId, again, token, sha256, laterMs, bcryptHash).1 == ResetTokenInvalid
  {
    var owner := FindByResetToken(users, sha256(token), nowMs, nextId).value;
    var after := ResetPasswordSpec(users, nextId, newPassword, token, sha256, nowMs, bcryptHash).0;
    assert forall id :: id in after ==> !HoldsToken(after[id], sha256(token), laterMs);
  }

  /**
   * The reset round trip: after `forgot-password` mailed a link for `email`,
   * the link's token resets that account's password until the expiry, and is
   * refused from the expiry on, when no other account holds the same hash.
   */
  lemma ForgotThenReset(users: map<Id, User>, nextId: Id, email: Option<string>, rawToken: string,
                        sha256: string -> string, nowMs: int, send: (string, string) -> bool,
                        newPassword: Option<string>, laterMs: int, bcryptHash: string -> string)
    requires Db.KeysBelow(users, nextId) && UsersUnique(users)
    requires ForgotPasswordSpec(users, nextId, email, rawToken, sha256, nowMs, send).1 == ResetLinkSent
    requires OnlyHolder(users, Db.FindUserByEmail(users, email.value, nextId).value, sha256(rawToken))
    requires Given(newPassword) && rawToken != ""
    ensures var after := ForgotPasswordSpec(users, nextId, email, rawToken, sha256, nowMs, send).0;
      var id := Db.FindUserByEmail(users, email.value, nextId).value;
      var reset := ResetPasswordSpec(after, nextId, newPassword, rawToken, sha256, laterMs, bcryptHash);
      && (laterMs < nowMs + ResetWindowMs ==>
            reset.1 == PasswordReset && reset.0 == after[id := AfterReset(after[id], newPassword.value, bcryptHash)])
      && (laterMs >= nowMs + ResetWindowMs ==> reset.1 == ResetTokenInvalid)
  {
    var after := ForgotPasswordSpec(users, nextId, email, rawToken, sha256, nowMs, send).0;
    var id := Db.FindUserByEmail(users, email.value, nextId).value;
    var h := sha256(rawToken);
    assert Db.KeysBelow(after, nextId);
    assert forall k :: k in after && k != id ==> after[k].resetPasswordToken != Some(h);
    if laterMs < nowMs + ResetWindowMs {
      assert HoldsToken(after[id], h, laterMs);
      var found := FindByResetToken(after, h, laterMs, nextId);
      assert found == Some(id);
    } else {
      assert forall k :: k in after ==> !HoldsToken(after[k], h, laterMs);
    }
  }

  // ------------------------------------------- reset fields the schema drops

  /** No stored account holds a reset token or expiry, as under a schema that declares neither path. */
  predicate NoResetFields(users: map<Id, User>) {
    forall id :: id in users ==> users[id].resetPasswordToken.None? && users[id].resetPasswordExpires.None?
  }

  /**
   * `forgot-password` as the code behaves with the schema it has: the same
   * responses, but the two fields it sets are paths backend/models/User.js
   * does not declare, so `save` stores nothing and the accounts stay as they were.
   */
  function ForgotPasswordAsWritten(users: map<Id, User>, nextId: Id, email: Option<string>, rawToken: string,
                                   sha256: string -> string, nowMs: int, send: (string, string) -> bool)
    : (r: (map<Id, User>, ForgotResult))
    ensures r.1 == ForgotPasswordSpec(users, nextId, email, rawToken, sha256, nowMs, send).1
    ensures r.0 == users
  {
    (users, ForgotPasswordSpec(users, nextId, email, rawToken, sha256, nowMs, send).1)
  }

  /**
   * With the reset fields dropped, a mailed link never works: after
   * `forgot-password` reports the link sent, every reset with a new password
   * and a non-empty token is refused as invalid or expired, whatever the
   * token and the time.
   */
  lemma ResetRefusedAsWritten(users: map<Id, User>, nextId: Id, email: Option<string>, rawToken: string,
                              sha256: string -> string, nowMs: int, send: (string, string) -> bool,
                              newPassword: Option<string>, token: string, laterMs: int,
                              bcryptHash: string -> string)
    requires NoResetFields(users)
    requires ForgotPasswordAsWritten(users, nextId, email, rawToken, sha256, nowMs, send).1 == ResetLinkSent
    requires Given(newPassword) && token != ""
    ensures var after := ForgotPasswordAsWritten(users, nextId, email, rawToken, sha256, nowMs, send).0;
      ResetPasswordSpec(after, nextId, newPassword, token, sha256, laterMs, bcryptHash) == (after, ResetTokenInvalid)
  {
  }
}
