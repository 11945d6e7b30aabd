/**
 * The subscription routes: the caller's subscriptions by due date, creation
 * through the schema's checks, and owner-scoped deletion, which leaves the
 * invoices already generated alone.
 */
module SubscriptionRoutes {
  import opened Wrappers
  import opened Calendar
  import opened Models
  import opened Sorting
  import Db

  function DueDate(p: (Id, Subscription)): DateTime {
    p.1.nextDueDate
  }

  /** `find({ user }).sort({ nextDueDate: 1 })`: the caller's subscriptions, soonest due first. */
  function ListSubscriptions(subscriptions: map<Id, Subscription>, nextId: Id, user: Id): (r: seq<(Id, Subscription)>)
    ensures SortedBy(r, DueDate, false)
    ensures forall p :: p in r <==>
      p.0 < nextId && p.0 in subscriptions && p.1 == subscriptions[p.0] && p.1.user == user
  {
    var docs := Db.Select(subscriptions, (s: Subscription) => s.user == user, nextId);
    var r := SortBy(docs, DueDate, false);
    forall p ensures p in r <==> p in docs {
      SortByKeepsElements(docs, DueDate, false, p);
    }
    r
  }

  /**
   * `new Subscription({...})` and its validation: the document to save, or
   * `None` for the 400 response.  `None` for an input stands for a missing
   * value or one the schema cannot cast; `description` must be a non-empty
   * string and `frequency` one of the two enum values.
   */
  function CheckSubscription(user: Id, client: Option<Id>, amount: Option<real>, description: Option<string>,
                             frequency: Option<string>, nextDueDate: Option<Date>, now: Date): (r: Option<Subscription>)
    ensures r.Some? <==>
      && client.Some? && amount.Some? && description.Some? && description.value != ""
      && frequency.Some? && ParseFrequency(frequency.value).Some? && nextDueDate.Some?
    ensures r.Some? ==>
      && SubscriptionValid(r.value)
      && r.value == Subscription(user, client.value, amount.value, description.value,
                                 ParseFrequency(frequency.value).value, nextDueDate.value, now)
  {
    if client.None? || amount.None? || description.None? || description.value == ""
       || frequency.None? || nextDueDate.None? then None
    else
      match ParseFrequency(frequency.value)
      case None => None
      case Some(f) => Some(Subscription(user, client.value, amount.value, description.value, f, nextDueDate.value, now))
  }

  /** `POST /`: the new id, or `None` for 400 with nothing stored. */
  method CreateSubscription(db: Db.Store, user: Id, client: Option<Id>, amount: Option<real>,
                            description: Option<string>, frequency: Option<string>,
                            nextDueDate: Option<Date>, now: Date) returns (created: Option<Id>)
    requires db.Valid()
    modifies db`subscriptions, db`nextId
    ensures db.Valid()
    ensures match CheckSubscription(user, client, amount, description, frequency, nextDueDate, now)
      case Some(sub) =>
        created == Some(old(db.nextId)) && old(db.nextId) !in old(db.subscriptions)
        && db.subscriptions == old(db.subscriptions)[old(db.nextId) := sub] && db.nextId == old(db.nextId) + 1
      case None =>
        created.None? && db.subscriptions == old(db.subscriptions) && db.nextId == old(db.nextId)
  {
    var checked := CheckSubscription(user, client, amount, description, frequency, nextDueDate, now);
    if checked.None? {
      return None;
    }
    var id := db.NewId();
    db.subscriptions := db.subscriptions[id := checked.value];
    created := Some(id);
  }

  /** `DELETE /:id`: removes the caller's subscription and nothing else; any other id gives 404. */
  method DeleteSubscription(db: Db.Store, id: Id, user: Id) returns (deleted: bool)
    requires db.Valid()
    modifies db`subscriptions
    ensures db.Valid()
    ensures deleted <==> Db.OwnsSubscription(old(db.subscriptions), id, user)
    ensures deleted ==> db.subscriptions == old(db.subscriptions) - {id}
    ensures !deleted ==> db.subscriptions == old(db.subscriptions)
    ensures db.invoices == old(db.invoices) && db.clients == old(db.clients)
  {
    deleted := id in db.subscriptions && db.subscriptions[id].user == user;
    if deleted {
      db.subscriptions := db.subscriptions - {id};
    }
  }
}
