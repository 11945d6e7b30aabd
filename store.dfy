/**
 * The document store the routes and the job talk to: one collection per model,
 * keyed by id, with ids handed out in increasing order.  Collection scans
 * visit documents in id order (insertion order).
 */
module Db {
  import opened Wrappers
  import opened Models

  /** Every key of `m` is below `n`: ids not yet handed out are free. */
  predicate KeysBelow<T>(m: map<Id, T>, n: nat) {
    forall id :: id in m ==> id < n
  }

  /** Saving under the next id keeps every id below the advanced counter. */
  lemma InsertKeepsKeysBelow<T>(m: map<Id, T>, n: nat, x: T)
    requires KeysBelow(m, n)
    ensures n !in m && KeysBelow(m[n := x], n + 1)
  {
  }

  /** `findOne({ _id: id, user })` finds the invoice: it exists and `user` owns it. */
  predicate OwnsInvoice(invoices: map<Id, Invoice>, id: Id, user: Id) {
    id in invoices && invoices[id].user == user
  }

  predicate OwnsSubscription(subscriptions: map<Id, Subscription>, id: Id, user: Id) {
    id in subscriptions && subscriptions[id].user == user
  }

  predicate OwnsClient(clients: map<Id, Client>, id: Id, user: Id) {
    id in clients && clients[id].user == user
  }

  /** `find(filter)`: the ids below `n` whose document satisfies `keep`, in ascending order. */
  function Scan<T>(m: map<Id, T>, keep: T -> bool, n: nat): (r: seq<Id>)
    ensures forall i :: 0 <= i < |r| ==> r[i] < n && r[i] in m && keep(m[r[i]])
    ensures forall i, j :: 0 <= i < j < |r| ==> r[i] < r[j]
    ensures forall id :: id < n && id in m && keep(m[id]) ==> id in r
  {
    if n == 0 then []
    else Scan(m, keep, n - 1) + (if n - 1 in m && keep(m[n - 1]) then [n - 1] else [])
  }

  /** `findOne(filter)`: the first matching document in scan order, if any. */
  function FindFirst<T>(m: map<Id, T>, keep: T -> bool, n: nat): (r: Option<Id>)
    ensures r.None? ==> forall id :: id < n && id in m ==> !keep(m[id])
    ensures r.Some? ==> r.value < n && r.value in m && keep(m[r.value])
    ensures r.Some? ==> forall id :: id < r.value && id in m ==> !keep(m[id])
  {
    var ids := Scan(m, keep, n);
    if ids == [] then None
    else
      assert forall id :: id < ids[0] && id in m && keep(m[id]) ==> id in ids;
      Some(ids[0])
  }

  /** A document saved under a fresh id is what `findOne` finds when no earlier document matched. */
  lemma FindFirstFindsNew<T>(m: map<Id, T>, keep: T -> bool, n: nat, x: T)
    requires KeysBelow(m, n)
    requires forall id :: id in m ==> !keep(m[id])
    requires keep(x)
    ensures FindFirst(m[n := x], keep, n + 1) == Some(n)
  {
    var after := m[n := x];
    assert n in after && keep(after[n]);
  }

  /** `find(filter)` with the documents: the matching ids below `n` paired with their documents, in ascending id order. */
  function Select<T(!new)>(m: map<Id, T>, keep: T -> bool, n: nat): (r: seq<(Id, T)>)
    ensures forall i :: 0 <= i < |r| ==> r[i].0 < n
    ensures forall i, j :: 0 <= i < j < |r| ==> r[i].0 < r[j].0
    ensures forall p :: p in r <==> p.0 < n && p.0 in m && p.1 == m[p.0] && keep(p.1)
  {
    if n == 0 then []
    else Select(m, keep, n - 1) + (if n - 1 in m && keep(m[n - 1]) then [(n - 1, m[n - 1])] else [])
  }

  /**
   * `Invoice.findByIdAndUpdate(id, { status: 'paid' })`: sets the status of
   * the invoice with that id, if there is one, and changes nothing else.
   */
  function SetPaid(invoices: map<Id, Invoice>, id: Id): (r: map<Id, Invoice>)
    ensures r.Keys == invoices.Keys
    ensures id in invoices ==> r[id] == invoices[id].(status := Paid)
    ensures forall k :: k in invoices && k != id ==> r[k] == invoices[k]
  {
    if id in invoices then invoices[id := invoices[id].(status := Paid)] else invoices
  }

  /** Marking paid twice is marking paid once, and a paid invoice is left as it is. */
  lemma SetPaidIdempotent(invoices: map<Id, Invoice>, id: Id)
    ensures SetPaid(SetPaid(invoices, id), id) == SetPaid(invoices, id)
    ensures id in invoices && invoices[id].status == Paid ==> SetPaid(invoices, id) == invoices
  {
  }

  /** `User.findOne({ email })`: the query's email goes through the same setters as the stored one. */
  function FindUserByEmail(users: map<Id, User>, email: string, nextId: Id): (r: Option<Id>)
    ensures r.Some? ==> r.value in users && users[r.value].email == NormalizeEmail(email)
    ensures r.None? && KeysBelow(users, nextId) ==> forall id :: id in users ==> users[id].email != NormalizeEmail(email)
    ensures r.Some? && UsersUnique(users) ==>
      forall id :: id in users && users[id].email == NormalizeEmail(email) ==> id == r.value
  {
    FindFirst(users, (u: User) => u.email == NormalizeEmail(email), nextId)
  }

  /** With unique emails, the account that has the email is the one the lookup finds. */
  lemma FindUserByEmailFinds(users: map<Id, User>, email: string, nextId: Id, id: Id)
    requires UsersUnique(users) && KeysBelow(users, nextId)
    requires id in users && users[id].email == NormalizeEmail(email)
    ensures FindUserByEmail(users, email, nextId) == Some(id)
  {
  }

  class Store {
    var users: map<Id, User>
    var clients: map<Id, Client>
    var subscriptions: map<Id, Subscription>
    var invoices: map<Id, Invoice>
    var nextId: Id

    /** Ids are fresh above `nextId`, and the user indexes are unique. */
    ghost predicate Valid()
      reads this
    {
      && KeysBelow(users, nextId) && KeysBelow(clients, nextId)
      && KeysBelow(subscriptions, nextId) && KeysBelow(invoices, nextId)
      && UsersUnique(users)
    }

    constructor ()
      ensures Valid()
      ensures users == map[] && clients == map[] && subscriptions == map[] && invoices == map[]
    {
      users, clients, subscriptions, invoices := map[], map[], map[], map[];
      nextId := 0;
    }

    /** A new ObjectId: no document of any collection holds it yet. */
    method NewId() returns (id: Id)
      requires Valid()
      modifies this`nextId
      ensures Valid()
      ensures id == old(nextId) && nextId == id + 1
      ensures id !in users && id !in clients && id !in subscriptions && id !in invoices
    {
      id := nextId;
      nextId := nextId + 1;
    }

    /**
     * `new User({...}).save()`: the user stored under a new id.  The callers
     * check the unique indexes first, so the save never meets a duplicate key.
     */
    method AddUser(u: User) returns (id: Id)
      requires Valid() && UniqueAgainst(users, u)
      modifies this`users, this`nextId
      ensures Valid()
      ensures id == old(nextId) && nextId == id + 1
      ensures id !in old(users) && users == old(users)[id := u]
    {
      id := NewId();
      InsertKeepsUnique(users, id, u);
      users := users[id := u];
    }
  }
}
