/**
 * The admin middleware: after authentication, the requesting user is looked
 * up by id, and only an existing user with the admin role is let through.
 */
module AdminGuard {
  import opened Models

  /** What `User.findById` gives: the user, nothing, or a thrown error. */
  datatype Lookup = Found(user: User) | NotFound | LookupError

  /** The request proceeds to the route, or is answered 403 or 500. */
  datatype Decision = Proceed | Forbidden | GuardServerError

  /** `findById(id)` over the users collection; `fails` stands for a store error. */
  function FindById(users: map<Id, User>, id: Id, fails: bool): (r: Lookup)
    ensures r.LookupError? <==> fails
    ensures r.Found? <==> !fails && id in users
    ensures r.Found? ==> r.user == users[id]
  {
    if fails then LookupError else if id in users then Found(users[id]) else NotFound
  }

  /** `adminMiddleware`, given the lookup's outcome. */
  function Decide(lookup: Lookup): (d: Decision)
    ensures d == Proceed <==> lookup.Found? && lookup.user.role == AdminRole
    ensures d == GuardServerError <==> lookup.LookupError?
  {
    match lookup
    case Found(u) => if u.role == AdminRole then Proceed else Forbidden
    case NotFound => Forbidden
    case LookupError => GuardServerError
  }

  /** The middleware for the user with id `id`. */
  function AdminMiddleware(users: map<Id, User>, id: Id, fails: bool): (d: Decision)
    ensures d == Proceed <==> !fails && id in users && users[id].role == AdminRole
    ensures d == GuardServerError <==> fails
    ensures d == Forbidden <==> !fails && (id !in users || users[id].role != AdminRole)
  {
    Decide(FindById(users, id, fails))
  }

  /**
   * A missing user and a user without the admin role get the same answer, so
   * the 403 does not tell whether the account exists.
   */
  lemma MissingAndNonAdminAlike(users: map<Id, User>, missing: Id, plain: Id)
    requires missing !in users
    requires plain in users && users[plain].role == UserRole
    ensures AdminMiddleware(users, missing, false) == AdminMiddleware(users, plain, false) == Forbidden
  {
  }

  /** Granting the admin role to an existing user is what lets it through. */
  lemma PromotionGrantsAccess(users: map<Id, User>, id: Id)
    requires id in users
    ensures AdminMiddleware(users[id := users[id].(role := AdminRole)], id, false) == Proceed
    ensures AdminMiddleware(users[id := users[id].(role := UserRole)], id, false) == Forbidden
  {
  }
}
