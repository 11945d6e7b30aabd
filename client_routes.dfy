/**
 * The client routes: the caller's clients, creation through the schema's
 * checks, and owner-scoped deletion.  Deleting a client does not cascade: a
 * subscription that names it keeps the dangling id, and the recurring job
 * then skips that subscription.
 */
module ClientRoutes {
  import opened Wrappers
  import opened Calendar
  import opened Models
  import Db
  import SubscriptionJob

  /** `find({ user })`: the caller's clients in scan order. */
  function ListClients(clients: map<Id, Client>, nextId: Id, user: Id): (r: seq<(Id, Client)>)
    ensures forall i, j :: 0 <= i < j < |r| ==> r[i].0 < r[j].0
    ensures forall p :: p in r <==> p.0 < nextId && p.0 in clients && p.1 == clients[p.0] && p.1.user == user
  {
    Db.Select(clients, (c: Client) => c.user == user, nextId)
  }

  /**
   * `new Client({...})` and its validation: the document, or `None` for the
   * 400 response when the name or email is missing or empty.  The phone is
   * optional and stored as given.
   */
  function CheckClient(user: Id, name: Option<string>, email: Option<string>, phone: Option<string>, now: Date): (r: Option<Client>)
    ensures r.Some? <==> name.Some? && name.value != "" && email.Some? && email.value != ""
    ensures r.Some? ==> ClientValid(r.value) && r.value == Client(user, name.value, email.value, phone, now)
  {
    if name.None? || email.None? then None
    else
      var c := Client(user, name.value, email.value, phone, now);
      if ClientValid(c) then Some(c) else None
  }

  /** `POST /`: the new id, or `None` for 400 with nothing stored. */
  method CreateClient(db: Db.Store, user: Id, name: Option<string>, email: Option<string>,
                      phone: Option<string>, now: Date) returns (created: Option<Id>)
    requires db.Valid()
    modifies db`clients, db`nextId
    ensures db.Valid()
    ensures match CheckClient(user, name, email, phone, now)
      case Some(c) =>
        created == Some(old(db.nextId)) && old(db.nextId) !in old(db.clients)
        && db.clients == old(db.clients)[old(db.nextId) := c] && db.nextId == old(db.nextId) + 1
      case None =>
        created.None? && db.clients == old(db.clients) && db.nextId == old(db.nextId)
  {
    var checked := CheckClient(user, name, email, phone, now);
    if checked.None? {
      return None;
    }
    var id := db.NewId();
    db.clients := db.clients[id := checked.value];
    created := Some(id);
  }

  /** `DELETE /:id`: removes the caller's client and nothing else; any other id gives 404. */
  method DeleteClient(db: Db.Store, id: Id, user: Id) returns (deleted: bool)
    requires db.Valid()
    modifies db`clients
    ensures db.Valid()
    ensures deleted <==> Db.OwnsClient(old(db.clients), id, user)
    ensures deleted ==> db.clients == old(db.clients) - {id}
    ensures !deleted ==> db.clients == old(db.clients)
    ensures db.subscriptions == old(db.subscriptions) && db.invoices == old(db.invoices)
  {
    deleted := id in db.clients && db.clients[id].user == user;
    if deleted {
      db.clients := db.clients - {id};
    }
  }

  /**
   * After its client is deleted, a due subscription that named it is found
   * without a client, so the recurring job skips it: no invoice for it, and
   * its due date stays where it was.
   */
  lemma DeletedClientIsSkipped(b: SubscriptionJob.Billing, client: Id, now: Date, failing: set<SubscriptionJob.StoreOp>, id: Id)
    requires SubscriptionJob.FreshIds(b) && SubscriptionJob.FindDue !in failing
    requires id in b.subscriptions && b.subscriptions[id].client == client
    requires SubscriptionJob.IsDue(b.subscriptions[id], now)
    requires SubscriptionJob.GotPast(SubscriptionJob.Run(b.(clients := b.clients - {client}), now, failing).1.outcome, id)
    ensures var b1 := b.(clients := b.clients - {client});
      var (b2, report) := SubscriptionJob.Run(b1, now, failing);
      && SubscriptionJob.NoInvoiceFor(report.created, id)
      && id in b2.subscriptions && b2.subscriptions[id] == b.subscriptions[id]
  {
    var b1 := b.(clients := b.clients - {client});
    SubscriptionJob.RunDueSubscription(b1, now, failing, id);
  }
}
