/**
 * The Mongoose schemas of the billing service as record types, with what each
 * schema enforces on save: required fields, enumerations, defaults, and the
 * normalisation and uniqueness rules of the user collection.
 */
module Models {
  import opened Wrappers
  import opened Text
  import opened Calendar

  /** A document id (ObjectId); the store hands them out in increasing order. */
  type Id = nat

  // ---------------------------------------------------------------- Client

  /** A customer of one user; holds no link to subscriptions or invoices. */
  datatype Client = Client(user: Id, name: string, email: string, phone: Option<string>, createdAt: Date)

  /** The Client schema: owner, name and email are required (a `required` string may not be empty). */
  predicate ClientValid(c: Client) {
    c.name != "" && c.email != ""
  }

  // ---------------------------------------------------------- Subscription

  datatype Frequency = Monthly | Yearly

  /** The schema's `frequency` enum: only these two spellings are accepted. */
  function ParseFrequency(s: string): (f: Option<Frequency>)
    ensures f == Some(Monthly) <==> s == "monthly"
    ensures f == Some(Yearly) <==> s == "yearly"
  {
    if s == "monthly" then Some(Monthly) else if s == "yearly" then Some(Yearly) else None
  }

  /** A standing agreement to bill `client`; `client` is a bare id and may dangle. */
  datatype Subscription = Subscription(
    user: Id, client: Id, amount: real, description: string,
    frequency: Frequency, nextDueDate: Date, createdAt: Date)

  predicate SubscriptionValid(s: Subscription) {
    s.description != ""
  }

  // --------------------------------------------------------------- Invoice

  const Pending: string := "pending"
  const Paid: string := "paid"

  /**
   * A bill: the client's name and email are copied strings, not a reference.
   * `status` is free text (the schema declares no enum); amounts are in rupees.
   */
  datatype Invoice = Invoice(
    user: Id, clientName: string, clientEmail: string, description: string,
    amount: real, status: string, createdAt: Date)

  /** The Invoice schema's `required` checks: an empty string fails them. */
  predicate InvoiceValid(i: Invoice) {
    i.clientName != "" && i.clientEmail != "" && i.description != ""
  }

  /** An invoice as `new Invoice({...})` builds it: status defaults to pending, createdAt to now. */
  function NewInvoice(user: Id, clientName: string, clientEmail: string, description: string,
                      amount: real, status: Option<string>, now: Date): (i: Invoice)
    ensures i.status == (if status.Some? then status.value else Pending)
    ensures i.createdAt == now && i.user == user && i.amount == amount
    ensures i.clientName == clientName && i.clientEmail == clientEmail && i.description == description
  {
    Invoice(user, clientName, clientEmail, description, amount, status.GetOr(Pending), now)
  }

  // ------------------------------------------------------------------ User

  datatype Role = UserRole | AdminRole
  datatype Gender = Male | Female | Other | PreferNotToSay

  /** The schema's `gender` enum. */
  function ParseGender(s: string): (g: Option<Gender>)
    ensures g.Some? <==> s == "male" || s == "female" || s == "other" || s == "prefer_not_to_say"
    ensures g == Some(PreferNotToSay) <==> s == "prefer_not_to_say"
  {
    match s
    case "male" => Some(Male)
    case "female" => Some(Female)
    case "other" => Some(Other)
    case "prefer_not_to_say" => Some(PreferNotToSay)
    case _ => None
  }

  /** The schema's `role` enum. */
  function ParseRole(s: string): Option<Role> {
    if s == "user" then Some(UserRole) else if s == "admin" then Some(AdminRole) else None
  }

  /**
   * An account.  `password` holds a bcrypt hash, or nothing for Google and
   * phone sign-ups; the reset fields hold the SHA-256 of a reset token and its
   * expiry in epoch milliseconds.
   */
  datatype User = User(
    username: string, email: string, password: Option<string>,
    mobileNumber: Option<string>, isPhoneVerified: bool,
    gender: Option<Gender>, role: Role,
    resetPasswordToken: Option<string>, resetPasswordExpires: Option<int>)

  /** The `lowercase` and `trim` setters on `email`. */
  function NormalizeEmail(s: string): string {
    Trim(LowerCase(s))
  }

  /** The `trim` setter on `username` and `mobileNumber`. */
  function NormalizeUsername(s: string): string {
    Trim(s)
  }

  /** Normalising twice changes nothing: stored emails and usernames are fixed points. */
  lemma NormalizeIdempotent(s: string)
    ensures NormalizeUsername(NormalizeUsername(s)) == NormalizeUsername(s)
    ensures NormalizeEmail(NormalizeEmail(s)) == NormalizeEmail(s)
    ensures forall c :: c in NormalizeEmail(s) ==> !('A' <= c <= 'Z')
  {
    TrimIdempotent(s);
    EmailHasNoUpper(s);
    EmailIdempotent(s);
  }

  /** A stored email holds no capital letter: trimming only drops characters of the lower-cased text. */
  lemma EmailHasNoUpper(s: string)
    ensures forall c :: c in NormalizeEmail(s) ==> !('A' <= c <= 'Z')
  {
    LowerCaseHasNoUpper(s);
    TrimKeepsCharacters(LowerCase(s));
  }

  /** So storing a stored email again changes nothing. */
  lemma EmailIdempotent(s: string)
    ensures NormalizeEmail(NormalizeEmail(s)) == NormalizeEmail(s)
  {
    EmailHasNoUpper(s);
    LowerCaseOfLower(NormalizeEmail(s));
    TrimIdempotent(LowerCase(s));
  }

  lemma LowerCaseHasNoUpper(s: string)
    ensures forall c :: c in LowerCase(s) ==> !('A' <= c <= 'Z')
  {
    var l := LowerCase(s);
    forall c | c in l ensures !('A' <= c <= 'Z') {
      var i :| 0 <= i < |l| && l[i] == c;
    }
  }

  lemma {:induction false} LowerCaseOfLower(t: string)
    requires forall c :: c in t ==> !('A' <= c <= 'Z')
    ensures LowerCase(t) == t
  {
    if t != [] {
      assert t[0] in t;
      assert forall c :: c in t[1..] ==> c in t;
      LowerCaseOfLower(t[1..]);
    }
  }

  /**
   * A new user document: the setters applied, `isPhoneVerified` defaulting to
   * false and `role` to user, no reset token.
   */
  function NewUser(username: string, email: string, password: Option<string>,
                   mobileNumber: Option<string>, isPhoneVerified: bool,
                   gender: Option<Gender>, role: Role): (u: User)
    ensures u.username == NormalizeUsername(username) && u.email == NormalizeEmail(email)
    ensures u.resetPasswordToken.None? && u.resetPasswordExpires.None?
    ensures u.mobileNumber == TrimMobile(mobileNumber)
    ensures u.password == password && u.isPhoneVerified == isPhoneVerified && u.gender == gender && u.role == role
  {
    User(NormalizeUsername(username), NormalizeEmail(email), password, TrimMobile(mobileNumber),
         isPhoneVerified, gender, role, None, None)
  }

  /** The `trim` setter of the optional `mobileNumber`. */
  function TrimMobile(mobileNumber: Option<string>): Option<string> {
    if mobileNumber.Some? then Some(Trim(mobileNumber.value)) else None
  }

  /** The required fields of a user, after the setters ran. */
  predicate UserValid(u: User) {
    u.username != "" && u.email != ""
  }

  /**
   * The unique indexes: `username` and `email` are unique, and `mobileNumber`
   * is unique among the users that have one (a sparse index).
   */
  predicate UsersUnique(users: map<Id, User>) {
    forall a, b :: a in users && b in users && a != b ==>
      && users[a].username != users[b].username
      && users[a].email != users[b].email
      && (users[a].mobileNumber.None? || users[a].mobileNumber != users[b].mobileNumber)
  }

  /** The usernames held by accounts. */
  function Usernames(users: map<Id, User>): (names: set<string>)
    ensures forall id :: id in users ==> users[id].username in names
    ensures forall x :: x in names ==> exists id :: id in users && users[id].username == x
  {
    set u | u in users.Values :: u.username
  }

  /** The emails held by accounts. */
  function Emails(users: map<Id, User>): (emails: set<string>)
    ensures forall id :: id in users ==> users[id].email in emails
    ensures forall x :: x in emails ==> exists id :: id in users && users[id].email == x
  {
    set u | u in users.Values :: u.email
  }

  /** True when `u` can join `users` without breaking a unique index. */
  predicate UniqueAgainst(users: map<Id, User>, u: User) {
    forall a :: a in users ==>
      && users[a].username != u.username
      && users[a].email != u.email
      && (u.mobileNumber.None? || users[a].mobileNumber != u.mobileNumber)
  }

  /** Inserting a user that clashes with no one keeps every index unique. */
  lemma InsertKeepsUnique(users: map<Id, User>, id: Id, u: User)
    requires UsersUnique(users) && id !in users && UniqueAgainst(users, u)
    ensures UsersUnique(users[id := u])
  {
  }

  /** Saving an account again with its indexed fields unchanged keeps every index unique. */
  lemma ReplaceKeepsUnique(users: map<Id, User>, id: Id, u: User)
    requires UsersUnique(users) && id in users
    requires u.username == users[id].username && u.email == users[id].email
    requires u.mobileNumber == users[id].mobileNumber
    ensures UsersUnique(users[id := u])
  {
  }

  /**
   * The pre-save hook: the password is hashed when it was modified and is not
   * empty; otherwise it is stored as it is.
   */
  function PreSave(password: Option<string>, modified: bool, bcryptHash: string -> string): (stored: Option<string>)
    ensures stored.None? <==> password.None?
    ensures stored != password ==> modified && password.value != "" && stored == Some(bcryptHash(password.value))
    ensures modified && Given(password) ==> stored == Some(bcryptHash(password.value))
  {
    if modified && password.Some? && password.value != "" then Some(bcryptHash(password.value)) else password
  }

  /**
   * A password set in plain text and saved is checked successfully at login,
   * when `compare` recognises what `bcryptHash` produces.
   */
  lemma SavedPasswordMatches(plain: string, bcryptHash: string -> string, compare: (string, string) -> bool)
    requires plain != ""
    requires forall p :: compare(p, bcryptHash(p))
    ensures var stored := PreSave(Some(plain), true, bcryptHash);
      stored.Some? && compare(plain, stored.value)
  {
  }
}
