/**
 * The Google sign-in strategy: the account with the profile's email is
 * signed in; when there is none, a new password-less account is created with
 * a username made from the email's local part, numbered `1`, `2`, ... until
 * no account holds it.
 *
 * Queries go through the schema's setters, so the username looked for and
 * the username stored are both trimmed, and the email both trimmed and
 * lower-cased.
 */
module PassportSetup {
  import opened Wrappers
  import opened Text
  import opened Models
  import opened NameSearch
  import Db

  /** The `done` callback: `done(null, user)` or `done(err, null)`. */
  datatype Done = DoneUser(id: Id) | DoneError

  /** `email.split('@')[0]`. */
  function EmailPrefix(email: string): (p: string)
    ensures StartsWith(email, p) && '@' !in p
  {
    BeforeFirst(email, '@')
  }

  /** The username tried after `k` refusals: the prefix itself, then the prefix followed by `k`. */
  function Candidate(prefix: string, k: nat): (c: string)
    ensures k == 0 ==> c == prefix
    ensures k > 0 ==> StartsWith(c, prefix) && c[|prefix|..] == NatToString(k)
  {
    if k == 0 then prefix else prefix + NatToString(k)
  }

  /** `User.findOne({ username: name })` finds someone. */
  predicate Taken(users: map<Id, User>, name: string) {
    NormalizeUsername(name) in Usernames(users)
  }

  /** `k` is where the loop stops: candidate `k` is free and every earlier one is taken. */
  predicate FirstFree(users: map<Id, User>, prefix: string, k: nat) {
    && !Taken(users, Candidate(prefix, k))
    && forall j :: 0 <= j < k ==> Taken(users, Candidate(prefix, j))
  }

  /** Decimal digits are not white space. */
  lemma DigitsAreNotSpace(s: string)
    requires AllDigits(s)
    ensures forall i :: 0 <= i < |s| ==> !IsSpace(s[i])
  {
  }

  /** A numbered candidate trims to the trimmed-at-the-start prefix followed by the number. */
  lemma NumberedCandidateTrimmed(prefix: string, k: nat)
    requires k > 0
    ensures NormalizeUsername(Candidate(prefix, k)) == TrimStart(prefix) + NatToString(k)
  {
    DigitsAreNotSpace(NatToString(k));
    TrimBefore(prefix, NatToString(k));
  }

  /** Different candidates stay different after trimming, so no account blocks two of them. */
  lemma CandidatesDistinct(prefix: string, j: nat, k: nat)
    requires j < k
    ensures NormalizeUsername(Candidate(prefix, j)) != NormalizeUsername(Candidate(prefix, k))
  {
    var t := TrimStart(prefix);
    NumberedCandidateTrimmed(prefix, k);
    if j == 0 {
      assert |Trim(prefix)| <= |t|;
    } else {
      NumberedCandidateTrimmed(prefix, j);
      if t + NatToString(j) == t + NatToString(k) {
        assert NatToString(j) == (t + NatToString(j))[|t|..];
        NatToStringInjective(j, k);
      }
    }
  }

  /** The names the loop tries, as the query sees them. */
  function Tried(prefix: string): (name: nat -> string)
    ensures forall j :: name(j) == NormalizeUsername(Candidate(prefix, j))
    ensures forall i, j :: 0 <= i < j ==> name(i) != name(j)
  {
    forall i: nat, j: nat | i < j ensures NormalizeUsername(Candidate(prefix, i)) != NormalizeUsername(Candidate(prefix, j)) {
      CandidatesDistinct(prefix, i, j);
    }
    (j: nat) => NormalizeUsername(Candidate(prefix, j))
  }

  /** `u` is the account a first Google sign-in with `email` creates over `users`. */
  ghost predicate GoogleSignUp(users: map<Id, User>, email: string, u: User) {
    exists k :: FirstFree(users, EmailPrefix(email), k) && u == GoogleUser(Candidate(EmailPrefix(email), k), email)
  }

  /** The loop stops at one place. */
  lemma FirstFreeUnique(users: map<Id, User>, prefix: string, i: nat, j: nat)
    requires FirstFree(users, prefix, i) && FirstFree(users, prefix, j)
    ensures i == j
  {
    if i < j {
      assert false;
    } else if j < i {
      assert false;
    }
  }

  /** So a first Google sign-in has one account to create. */
  lemma GoogleSignUpUnique(users: map<Id, User>, email: string, u: User, v: User)
    requires GoogleSignUp(users, email, u) && GoogleSignUp(users, email, v)
    ensures u == v
  {
    var prefix := EmailPrefix(email);
    var i :| FirstFree(users, prefix, i) && u == GoogleUser(Candidate(prefix, i), email);
    var j :| FirstFree(users, prefix, j) && v == GoogleUser(Candidate(prefix, j), email);
    FirstFreeUnique(users, prefix, i, j);
  }

  /** Where the loop stops is where `FirstFree` holds. */
  lemma LoopStopsAtFirstFree(users: map<Id, User>, email: string, k: nat)
    requires Tried(EmailPrefix(email))(k) !in Usernames(users)
    requires forall j :: 0 <= j < k ==> Tried(EmailPrefix(email))(j) in Usernames(users)
    ensures FirstFree(users, EmailPrefix(email), k)
    ensures GoogleSignUp(users, email, GoogleUser(Candidate(EmailPrefix(email), k), email))
  {
  }

  /** A new account whose username and email no account holds, and with no phone number, breaks no unique index. */
  lemma NewAccountFits(users: map<Id, User>, user: User)
    requires user.username !in Usernames(users) && user.mobileNumber.None?
    requires forall id :: id in users ==> users[id].email != user.email
    ensures UniqueAgainst(users, user)
  {
  }

  /** The account created for a new Google user: no password, not phone-verified, role user. */
  function GoogleUser(username: string, email: string): (u: User)
    ensures u.password.None? && u.mobileNumber.None? && !u.isPhoneVerified
    ensures u.role == UserRole && u.gender.None?
    ensures u.username == NormalizeUsername(username) && u.email == NormalizeEmail(email)
  {
    NewUser(username, email, None, None, false, None, UserRole)
  }

  /** Saving a new account under the next id keeps the ids fresh and the indexes unique. */
  lemma SignUpKeepsIndexes(users: map<Id, User>, nextId: Id, u: User)
    requires Db.KeysBelow(users, nextId) && UsersUnique(users)
    requires forall id :: id in users ==> users[id].email != u.email
    requires u.username !in Usernames(users) && u.mobileNumber.None?
    ensures nextId !in users
    ensures Db.KeysBelow(users[nextId := u], nextId + 1)
    ensures UsersUnique(users[nextId := u])
  {
    NewAccountFits(users, u);
    InsertKeepsUnique(users, nextId, u);
  }

  /** The `while` loop of the sign-up branch: the account to create, with the first free username. */
  method ChooseAccount(users: map<Id, User>, email: string) returns (u: User)
    ensures GoogleSignUp(users, email, u)
    ensures u.username !in Usernames(users)
    ensures u.email == NormalizeEmail(email) && u.mobileNumber.None?
  {
    var prefix := EmailPrefix(email);
    var k := FirstFreeIndex(Usernames(users), Tried(prefix));
    LoopStopsAtFirstFree(users, email, k);
    u := GoogleUser(Candidate(prefix, k), email);
  }

  /**
   * The sign-up branch, taken when no account has the email: the first free
   * username is chosen and the account saved.  A username that trims to
   * nothing (an email that starts with `@`) fails the schema's `required`
   * check, reported as an error with nothing saved.
   */
  method SignUp(db: Db.Store, email: string) returns (r: Done)
    requires db.Valid()
    requires forall id :: id in db.users ==> db.users[id].email != NormalizeEmail(email)
    modifies db`users, db`nextId
    ensures db.Valid()
    ensures r.DoneError? ==> db.users == old(db.users) && db.nextId == old(db.nextId)
    ensures r.DoneError? ==> exists u :: GoogleSignUp(old(db.users), email, u) && !UserValid(u)
    ensures r.DoneError? ==> forall u :: GoogleSignUp(old(db.users), email, u) ==> !UserValid(u)
    ensures r.DoneUser? ==>
      && r.id == old(db.nextId) && db.nextId == r.id + 1 && r.id !in old(db.users) && r.id in db.users
      && db.users == old(db.users)[r.id := db.users[r.id]]
      && GoogleSignUp(old(db.users), email, db.users[r.id])
  {
    var users, nextId := db.users, db.nextId;
    var user := ChooseAccount(users, email);
    if !UserValid(user) {
      forall u | GoogleSignUp(users, email, u) ensures !UserValid(u) {
        GoogleSignUpUnique(users, email, u, user);
      }
      return DoneError;
    }
    NewAccountFits(users, user);
    var id := db.AddUser(user);
    r := DoneUser(id);
  }

  /**
   * The verify callback with the profile's email.  `fails` stands for a store
   * error, reported as `done(err, null)` with nothing created.
   */
  method FindOrCreate(db: Db.Store, email: string, fails: bool) returns (r: Done)
    requires db.Valid()
    modifies db`users, db`nextId
    ensures db.Valid()
    ensures fails ==> r == DoneError
    ensures !fails && Db.FindUserByEmail(old(db.users), email, old(db.nextId)).Some? ==>
      r == DoneUser(Db.FindUserByEmail(old(db.users), email, old(db.nextId)).value)
    ensures r.DoneUser? ==> r.id in db.users && db.users[r.id].email == NormalizeEmail(email)
    ensures r.DoneUser? && r.id in old(db.users) ==> db.users == old(db.users) && db.nextId == old(db.nextId)
    ensures r.DoneUser? && r.id !in old(db.users) ==>
      && Db.FindUserByEmail(old(db.users), email, old(db.nextId)).None?
      && r.id == old(db.nextId) && db.nextId == r.id + 1
      && db.users == old(db.users)[r.id := db.users[r.id]]
      && GoogleSignUp(old(db.users), email, db.users[r.id])
    ensures r.DoneError? ==> db.users == old(db.users) && db.nextId == old(db.nextId)
    ensures (&& !fails && Db.FindUserByEmail(old(db.users), email, old(db.nextId)).None?
             && forall u :: GoogleSignUp(old(db.users), email, u) ==> UserValid(u)) ==> r.DoneUser?
  {
    if fails {
      return DoneError;
    }
    var existing := Db.FindUserByEmail(db.users, email, db.nextId);
    if existing.Some? {
      return DoneUser(existing.value);
    }
    r := SignUp(db, email);
  }
}
