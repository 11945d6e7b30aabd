/**
 * Phone sign-in: `send-otp` asks the SMS verification service for a code,
 * `verify-otp` checks it and signs the phone's account in, creating one
 * (verified, password-less) when no account has the number.  A new account
 * is named `user_<digits>`, or `user_<digits>_<k>` for the first `k` whose
 * username and placeholder email are both free.
 *
 * The verification service is a parameter: `sendCode(to)` answers the error
 * it threw, if any; `checkCode(to, code)` answers the check's status or the
 * error it threw.
 */
module PhoneAuth {
  import opened Wrappers
  import opened Text
  import opened Models
  import opened NameSearch
  import Db
  import AuthRoutes

  // ------------------------------------------------------------ formatting

  /** A number that starts with `+` is kept; any other gets the `+91` country code. */
  function FormatPhone(mobile: string): (f: string)
    ensures StartsWith(f, "+")
    ensures StartsWith(mobile, "+") ==> f == mobile
    ensures !StartsWith(mobile, "+") ==> f == "+91" + mobile
  {
    if StartsWith(mobile, "+") then mobile else "+91" + mobile
  }

  /** Formatting an already formatted number changes nothing. */
  lemma FormatPhoneIdempotent(mobile: string)
    ensures FormatPhone(FormatPhone(mobile)) == FormatPhone(mobile)
  {
  }

  // ---------------------------------------------------------------- errors

  /** What the verification service throws: an error `code` and an HTTP `status`, either possibly absent. */
  datatype ServiceError = ServiceError(code: Option<int>, status: Option<int>)

  /** `err.status || 500`: an absent or zero status becomes 500. */
  function StatusOr500(e: ServiceError): (s: int)
    ensures s == 500 || (e.status.Some? && s == e.status.value && s != 0)
    ensures e.status.Some? && e.status.value != 0 ==> s == e.status.value
  {
    if e.status.Some? && e.status.value != 0 then e.status.value else 500
  }

  /** The messages `send-otp` answers a failure with. */
  datatype SendFailure = InvalidNumber | CannotSendToNumber | TooManyRequests | SendFailed

  /** The responses of `send-otp`. */
  datatype SendResult =
    | SendMissingNumber
    | OtpSent(to: string)
    | SendError(status: int, failure: SendFailure, code: Option<int>)

  /** How `send-otp` reports a service error: status and message. */
  function SendErrorOf(e: ServiceError): (r: SendResult)
    ensures r.SendError? && r.code == e.code
    ensures r.failure == InvalidNumber <==> e.code == Some(60200) || e.code == Some(21211)
    ensures r.failure == CannotSendToNumber <==>
      !(e.code == Some(60200) || e.code == Some(21211)) && (e.code == Some(60203) || e.code == Some(21614))
    ensures r.failure == TooManyRequests <==>
      && !(e.code == Some(60200) || e.code == Some(21211) || e.code == Some(60203) || e.code == Some(21614))
      && (e.code == Some(60202) || e.status == Some(429))
    ensures r.failure == InvalidNumber || r.failure == CannotSendToNumber ==> r.status == 400
    ensures r.failure == TooManyRequests ==> r.status == 429
    ensures r.failure == SendFailed ==> r.status == StatusOr500(e)
  {
    if e.code == Some(60200) || e.code == Some(21211) then SendError(400, InvalidNumber, e.code)
    else if e.code == Some(60203) || e.code == Some(21614) then SendError(400, CannotSendToNumber, e.code)
    else if e.code == Some(60202) || e.status == Some(429) then SendError(429, TooManyRequests, e.code)
    else SendError(StatusOr500(e), SendFailed, e.code)
  }

  /** `POST /phone/send-otp`. */
  function SendOtp(mobile: Option<string>, sendCode: string -> Option<ServiceError>): (r: SendResult)
    ensures r == SendMissingNumber <==> !Given(mobile)
    ensures r.OtpSent? <==> Given(mobile) && sendCode(FormatPhone(mobile.value)).None?
    ensures r.OtpSent? ==> r.to == FormatPhone(mobile.value) && StartsWith(r.to, "+")
    ensures r.SendError? ==> r == SendErrorOf(sendCode(FormatPhone(mobile.value)).value)
  {
    if !Given(mobile) then SendMissingNumber
    else
      var to := FormatPhone(mobile.value);
      match sendCode(to)
      case None => OtpSent(to)
      case Some(e) => SendErrorOf(e)
  }

  /** What the verification check answers: its status, or the error it threw. */
  datatype CheckOutcome = CheckStatus(status: string) | CheckThrew(error: ServiceError)

  /** The messages `verify-otp` answers a failure with. */
  datatype VerifyFailure = OtpInvalid | TooManyAttempts | VerifyFailed

  /** The responses of `verify-otp`. */
  datatype PhoneResult =
    | PhoneLoggedIn(id: Id, role: Role, username: string)
    | PhoneMissingFields
    | PhoneError(status: int, failure: VerifyFailure, code: Option<int>)

  /** How `verify-otp` reports a service error: status and message. */
  function VerifyErrorOf(e: ServiceError): (r: PhoneResult)
    ensures r.PhoneError? && r.code == e.code
    ensures r.failure == OtpInvalid <==> e.code == Some(20404) || e.status == Some(404)
    ensures r.failure == TooManyAttempts <==> !(e.code == Some(20404) || e.status == Some(404)) && e.code == Some(60202)
    ensures r.failure == OtpInvalid ==> r.status == 400
    ensures r.failure == TooManyAttempts ==> r.status == 429
    ensures r.failure == VerifyFailed ==> r.status == StatusOr500(e)
  {
    if e.code == Some(20404) || e.status == Some(404) then PhoneError(400, OtpInvalid, e.code)
    else if e.code == Some(60202) then PhoneError(429, TooManyAttempts, e.code)
    else PhoneError(StatusOr500(e), VerifyFailed, e.code)
  }

  /** A rejected code: the check answered, but not `approved`. */
  const Rejected: PhoneResult := PhoneError(400, OtpInvalid, None)

  /**
   * A code the service rejects and a code the service reports as unknown
   * (error 20404) get the same status and message.
   */
  lemma RejectedLikeUnknown(status: Option<int>)
    ensures VerifyErrorOf(ServiceError(Some(20404), status)).status == Rejected.status
    ensures VerifyErrorOf(ServiceError(Some(20404), status)).failure == Rejected.failure
  {
  }

  // -------------------------------------------------------- phone accounts

  /** The domain of the placeholder email of a phone account. */
  const PlaceholderDomain: string := "@phone.placeholder.email"

  /** The username tried after `k` refusals: `user_<digits>`, then `user_<digits>_<k>`. */
  function PhoneCandidate(digits: string, k: nat): (c: string)
    ensures StartsWith(c, "user_" + digits)
    ensures k == 0 <==> |c| == 5 + |digits|
  {
    if k == 0 then "user_" + digits else "user_" + digits + "_" + NatToString(k)
  }

  /** The placeholder email that goes with a username. */
  function PlaceholderEmail(username: string): (e: string)
    ensures |e| == |username| + |PlaceholderDomain| && e[..|username|] == username
    ensures EndsWith(e, PlaceholderDomain)
  {
    username + PlaceholderDomain
  }

  /** Neither white space nor an upper-case ASCII letter: untouched by the schema's setters. */
  predicate Plain(s: string) {
    forall i :: 0 <= i < |s| ==> !IsSpace(s[i]) && !('A' <= s[i] <= 'Z')
  }

  lemma PlainJoin(a: string, b: string)
    requires Plain(a) && Plain(b)
    ensures Plain(a + b)
  {
    assert forall i :: |a| <= i < |a + b| ==> (a + b)[i] == b[i - |a|];
  }

  lemma DigitsArePlain(s: string)
    requires AllDigits(s)
    ensures Plain(s)
  {
  }

  /** The setters leave a plain string as it is. */
  lemma PlainIsNormal(s: string)
    requires Plain(s)
    ensures NormalizeUsername(s) == s && NormalizeEmail(s) == s
  {
    TrimWithoutSpace(s);
    forall c | c in s ensures !('A' <= c <= 'Z') {
      var i :| 0 <= i < |s| && s[i] == c;
    }
    LowerCaseOfLower(s);
  }

  /** Candidates and their emails are plain, so the lookups see them as written. */
  lemma CandidateIsPlain(digits: string, k: nat)
    requires AllDigits(digits)
    ensures Plain(PhoneCandidate(digits, k)) && Plain(PlaceholderEmail(PhoneCandidate(digits, k)))
  {
    var base := "user_" + digits;
    DigitsArePlain(digits);
    PlainJoin("user_", digits);
    var c := base;
    if k > 0 {
      var n := NatToString(k);
      DigitsArePlain(n);
      PlainJoin(base, "_");
      PlainJoin(base + "_", n);
      c := base + "_" + n;
    }
    assert c == PhoneCandidate(digits, k);
    PlainJoin(c, PlaceholderDomain);
  }

  /** Different counters give different candidates. */
  lemma PhoneCandidatesDistinct(digits: string, j: nat, k: nat)
    requires j < k
    ensures PhoneCandidate(digits, j) != PhoneCandidate(digits, k)
  {
    if j > 0 {
      var p := "user_" + digits + "_";
      if PhoneCandidate(digits, j) == PhoneCandidate(digits, k) {
        assert p + NatToString(j) == PhoneCandidate(digits, j);
        assert p + NatToString(k) == PhoneCandidate(digits, k);
        assert NatToString(j) == (p + NatToString(j))[|p|..];
        assert NatToString(k) == (p + NatToString(k))[|p|..];
        NatToStringInjective(j, k);
      }
    }
  }

  /**
   * The names a candidate can clash with: the usernames, and the local parts
   * of the placeholder emails.
   */
  function PhoneNames(users: map<Id, User>): (names: set<string>)
    ensures forall c :: c in names <==> c in Usernames(users) || PlaceholderEmail(c) in Emails(users)
  {
    PlaceholderLocalsExact(users);
    Usernames(users) + PlaceholderLocals(users)
  }

  /** The local parts of the stored placeholder emails. */
  function PlaceholderLocals(users: map<Id, User>): set<string> {
    set e | e in Emails(users) && EndsWith(e, PlaceholderDomain) :: e[..|e| - |PlaceholderDomain|]
  }

  /** A name is a placeholder local part exactly when its placeholder email is stored. */
  lemma PlaceholderLocalsExact(users: map<Id, User>)
    ensures forall c :: c in PlaceholderLocals(users) <==> PlaceholderEmail(c) in Emails(users)
  {
    forall c | PlaceholderEmail(c) in Emails(users) ensures c in PlaceholderLocals(users) {
      LocalPartOfPlaceholder(c);
    }
    forall c | c in PlaceholderLocals(users) ensures PlaceholderEmail(c) in Emails(users) {
      var e :| e in Emails(users) && EndsWith(e, PlaceholderDomain) && c == e[..|e| - |PlaceholderDomain|];
      PlaceholderOfLocalPart(e);
    }
  }

  /** Dropping the placeholder domain from a placeholder email gives back its username. */
  lemma LocalPartOfPlaceholder(c: string)
    ensures var e := PlaceholderEmail(c); EndsWith(e, PlaceholderDomain) && e[..|e| - |PlaceholderDomain|] == c
  {
  }

  /** An email ending in the placeholder domain is the placeholder email of what precedes the domain. */
  lemma PlaceholderOfLocalPart(e: string)
    requires EndsWith(e, PlaceholderDomain)
    ensures PlaceholderEmail(e[..|e| - |PlaceholderDomain|]) == e
  {
    assert e == e[..|e| - |PlaceholderDomain|] + e[|e| - |PlaceholderDomain|..];
  }

  /** The candidates the loop tries, as `nat -> string`, all different. */
  function PhoneTried(digits: string): (name: nat -> string)
    ensures forall j :: name(j) == PhoneCandidate(digits, j)
    ensures forall i, j :: 0 <= i < j ==> name(i) != name(j)
  {
    forall i: nat, j: nat | i < j ensures PhoneCandidate(digits, i) != PhoneCandidate(digits, j) {
      PhoneCandidatesDistinct(digits, i, j);
    }
    (j: nat) => PhoneCandidate(digits, j)
  }

  /**
   * The `$or` lookup of the loop finds someone.  The setters leave a
   * candidate and its email as they are (`CandidateIsNormal`), so the lookup
   * compares them as written.
   */
  predicate PhoneTaken(users: map<Id, User>, c: string) {
    c in Usernames(users) || PlaceholderEmail(c) in Emails(users)
  }

  /** `k` is where the loop stops: candidate `k` is free, every earlier one taken. */
  predicate FirstFreePhone(users: map<Id, User>, digits: string, k: nat) {
    && !PhoneTaken(users, PhoneCandidate(digits, k))
    && forall j :: 0 <= j < k ==> PhoneTaken(users, PhoneCandidate(digits, j))
  }

  /**
   * The account created for a new phone: the candidate and its email,
   * verified, no password, role user, the formatted number trimmed by its
   * setter.
   */
  function PhoneUser(username: string, formatted: string): (u: User)
    ensures u.password.None? && u.isPhoneVerified && u.role == UserRole && u.gender.None?
    ensures u.mobileNumber == Some(Trim(formatted))
    ensures u.username == username && u.email == PlaceholderEmail(username)
    ensures u.resetPasswordToken.None? && u.resetPasswordExpires.None?
  {
    User(username, PlaceholderEmail(username), None, Some(Trim(formatted)), true, None, UserRole, None, None)
  }

  /** `PhoneUser` is the document `new User({...})` builds from a candidate: the setters change nothing else. */
  lemma PhoneUserIsNewUser(digits: string, k: nat, formatted: string)
    requires AllDigits(digits)
    ensures var c := PhoneCandidate(digits, k);
      PhoneUser(c, formatted) == NewUser(c, PlaceholderEmail(c), None, Some(formatted), true, None, UserRole)
  {
    CandidateIsNormal(digits, k);
  }

  /** `u` is the account a first sign-in with the formatted number creates over `users`. */
  ghost predicate PhoneSignUp(users: map<Id, User>, formatted: string, u: User) {
    exists k :: FirstFreePhone(users, DigitsOf(formatted), k)
      && u == PhoneUser(PhoneCandidate(DigitsOf(formatted), k), formatted)
  }

  /** `User.findOne({ mobileNumber })`, through the `trim` setter. */
  function FindByMobile(users: map<Id, User>, formatted: string, nextId: Id): (r: Option<Id>)
    ensures r.Some? ==> r.value in users && users[r.value].mobileNumber == Some(Trim(formatted))
    ensures r.None? && Db.KeysBelow(users, nextId) ==>
      forall id :: id in users ==> users[id].mobileNumber != Some(Trim(formatted))
  {
    Db.FindFirst(users, HasMobile(Trim(formatted)), nextId)
  }

  function HasMobile(mobile: string): User -> bool {
    (u: User) => u.mobileNumber == Some(mobile)
  }

  /** A candidate and its email are looked up as they are written. */
  lemma CandidateIsNormal(digits: string, j: nat)
    requires AllDigits(digits)
    ensures var c := PhoneCandidate(digits, j);
      NormalizeUsername(c) == c && NormalizeEmail(PlaceholderEmail(c)) == PlaceholderEmail(c)
  {
    var c := PhoneCandidate(digits, j);
    CandidateIsPlain(digits, j);
    PlainIsNormal(c);
    PlainIsNormal(PlaceholderEmail(c));
  }

  /**
   * Where the loop stops is where `FirstFreePhone` holds, and the account
   * built from that candidate is free on both indexes it is looked up by.
   */
  lemma PhoneLoopStops(users: map<Id, User>, formatted: string, name: nat -> string, names: set<string>, k: nat)
    requires name == PhoneTried(DigitsOf(formatted)) && forall c :: c in names <==> PhoneTaken(users, c)
    requires name(k) !in names
    requires forall j :: 0 <= j < k ==> name(j) in names
    ensures FirstFreePhone(users, DigitsOf(formatted), k)
    ensures var u := PhoneUser(PhoneCandidate(DigitsOf(formatted), k), formatted);
      u.username !in Usernames(users) && u.email !in Emails(users)
  {
    var digits := DigitsOf(formatted);
    forall j | 0 <= j < k ensures PhoneTaken(users, PhoneCandidate(digits, j)) {
      assert name(j) in names;
    }
    assert name(k) == PhoneCandidate(digits, k);
  }

  /** The account of the first free candidate is the one `PhoneSignUp` describes. */
  lemma FirstFreeSignsUp(users: map<Id, User>, formatted: string, k: nat)
    requires FirstFreePhone(users, DigitsOf(formatted), k)
    ensures PhoneSignUp(users, formatted, PhoneUser(PhoneCandidate(DigitsOf(formatted), k), formatted))
  {
  }

  /**
   * The names the `$or` lookup of the loop would find, read from the store
   * once: the loop does not change the store between its lookups.
   */
  method TakenNames(users: map<Id, User>) returns (names: set<string>)
    ensures forall c :: c in names <==> PhoneTaken(users, c)
  {
    names := PhoneNames(users);
  }

  /** The `while` loop of the sign-up branch: the new account, with the first free username. */
  method ChoosePhoneAccount(users: map<Id, User>, formatted: string) returns (u: User)
    ensures PhoneSignUp(users, formatted, u)
    ensures u.username !in Usernames(users) && u.email !in Emails(users)
    ensures u.mobileNumber == Some(Trim(formatted))
  {
    var digits := DigitsOf(formatted);
    var names := TakenNames(users);
    var name := PhoneTried(digits);
    var k := FirstFreeIndex(names, name);
    PhoneLoopStops(users, formatted, name, names, k);
    FirstFreeSignsUp(users, formatted, k);
    u := PhoneUser(PhoneCandidate(digits, k), formatted);
  }

  /** A new phone account clashes with no account when no account has the number. */
  lemma PhoneAccountFits(users: map<Id, User>, nextId: Id, u: User)
    requires Db.KeysBelow(users, nextId) && UsersUnique(users)
    requires u.username !in Usernames(users) && u.email !in Emails(users)
    requires forall id :: id in users ==> users[id].mobileNumber != u.mobileNumber
    ensures nextId !in users && UniqueAgainst(users, u)
    ensures UsersUnique(users[nextId := u])
  {
    assert UniqueAgainst(users, u);
    InsertKeepsUnique(users, nextId, u);
  }

  /** The sign-up branch: the account is chosen and saved under a new id. */
  method PhoneRegister(db: Db.Store, formatted: string) returns (id: Id)
    requires db.Valid()
    requires forall k :: k in db.users ==> db.users[k].mobileNumber != Some(Trim(formatted))
    modifies db`users, db`nextId
    ensures db.Valid()
    ensures id == old(db.nextId) && db.nextId == id + 1 && id !in old(db.users) && id in db.users
    ensures db.users == old(db.users)[id := db.users[id]]
    ensures PhoneSignUp(old(db.users), formatted, db.users[id])
    ensures db.users[id].mobileNumber == Some(Trim(formatted)) && db.users[id].isPhoneVerified
  {
    var users, nextId := db.users, db.nextId;
    var user := ChoosePhoneAccount(users, formatted);
    PhoneAccountFits(users, nextId, user);
    id := db.AddUser(user);
  }

  /** The log-in branch: an account not yet verified is marked verified and saved. */
  method MarkVerified(db: Db.Store, id: Id)
    requires id in db.users && db.Valid()
    modifies db`users
    ensures db.users == old(db.users)[id := old(db.users)[id].(isPhoneVerified := true)]
    ensures db.Valid()
  {
    var user := db.users[id];
    if !user.isPhoneVerified {
      user := user.(isPhoneVerified := true);
      ReplaceKeepsUnique(db.users, id, user);
      db.users := db.users[id := user];
    } else {
      assert db.users == db.users[id := user.(isPhoneVerified := true)];
    }
  }

  /**
   * `POST /phone/verify-otp`.  An approved code signs in the account with the
   * number, marking it verified, or creates one; any other answer changes
   * nothing.
   */
  method VerifyOtp(db: Db.Store, mobile: Option<string>, code: Option<string>,
                   checkCode: (string, string) -> CheckOutcome) returns (r: PhoneResult)
    requires db.Valid()
    modifies db`users, db`nextId
    ensures db.Valid()
    ensures r == PhoneMissingFields <==> !Given(mobile) || !Given(code)
    ensures r.PhoneLoggedIn? <==>
      Given(mobile) && Given(code) && checkCode(FormatPhone(mobile.value), code.value) == CheckStatus("approved")
    ensures r.PhoneError? ==>
      var outcome := checkCode(FormatPhone(mobile.value), code.value);
      r == if outcome.CheckThrew? then VerifyErrorOf(outcome.error) else Rejected
    ensures !r.PhoneLoggedIn? ==> db.users == old(db.users) && db.nextId == old(db.nextId)
    ensures r.PhoneLoggedIn? ==>
      && r.id in db.users
      && db.users[r.id].mobileNumber == Some(Trim(FormatPhone(mobile.value))) && db.users[r.id].isPhoneVerified
      && r.role == db.users[r.id].role && r.username == db.users[r.id].username
    ensures r.PhoneLoggedIn? && r.id in old(db.users) ==>
      && FindByMobile(old(db.users), FormatPhone(mobile.value), old(db.nextId)) == Some(r.id)
      && db.nextId == old(db.nextId)
      && db.users == old(db.users)[r.id := old(db.users)[r.id].(isPhoneVerified := true)]
    ensures r.PhoneLoggedIn? && r.id !in old(db.users) ==>
      && FindByMobile(old(db.users), FormatPhone(mobile.value), old(db.nextId)).None?
      && r.id == old(db.nextId) && db.nextId == r.id + 1
      && db.users == old(db.users)[r.id := db.users[r.id]]
      && PhoneSignUp(old(db.users), FormatPhone(mobile.value), db.users[r.id])
  {
    if !Given(mobile) || !Given(code) {
      return PhoneMissingFields;
    }
    var formatted := FormatPhone(mobile.value);
    var outcome := checkCode(formatted, code.value);
    if outcome.CheckThrew? {
      return VerifyErrorOf(outcome.error);
    }
    if outcome.status != "approved" {
      return Rejected;
    }
    var found := FindByMobile(db.users, formatted, db.nextId);
    var id;
    if found.None? {
      id := PhoneRegister(db, formatted);
    } else {
      id := found.value;
      MarkVerified(db, id);
    }
    var user := db.users[id];
    r := PhoneLoggedIn(id, user.role, user.username);
  }

  /** Once the account is saved, the next sign-in with the same number finds it. */
  lemma SecondSignInFindsAccount(users: map<Id, User>, nextId: Id, formatted: string, u: User)
    requires Db.KeysBelow(users, nextId)
    requires forall id :: id in users ==> users[id].mobileNumber != Some(Trim(formatted))
    requires u.mobileNumber == Some(Trim(formatted))
    ensures FindByMobile(users[nextId := u], formatted, nextId + 1) == Some(nextId)
  {
    Db.FindFirstFindsNew(users, HasMobile(Trim(formatted)), nextId, u);
  }

  /**
   * A phone account has no password, so logging in with its email and any
   * password is answered with the phone sign-in hint.
   */
  lemma PhoneAccountGetsPhoneHint(users: map<Id, User>, nextId: Id, id: Id, email: Option<string>,
                                  password: Option<string>, compare: (string, string) -> bool)
    requires UsersUnique(users) && Db.KeysBelow(users, nextId)
    requires id in users && users[id].password.None? && users[id].isPhoneVerified
    requires users[id].mobileNumber.Some? && StartsWith(users[id].mobileNumber.value, "+")
    requires Given(email) && users[id].email == NormalizeEmail(email.value)
    requires Given(password)
    ensures AuthRoutes.Login(users, nextId, email, password, compare) == AuthRoutes.UsePhoneSignIn
  {
    Db.FindUserByEmailFinds(users, email.value, nextId, id);
    assert Given(users[id].mobileNumber);
  }
}
