/**
 * One pass of the recurring-invoice job (`checkAndCreateInvoices`).
 *
 * The pass reads the clock once, finds every subscription whose next due date
 * is at or before that instant (an overdue one is still found), joins each with
 * its client, and walks the list in order: a subscription whose client is gone
 * is skipped; otherwise a pending invoice copying the client's name and email
 * and the subscription's owner, description and amount is saved, and then the
 * subscription is saved with its due date moved on by one month or one year.
 * One try block covers the whole walk, so a store error ends the pass: what was
 * saved before it stays saved and nothing after it is attempted.
 */
module SubscriptionJob {
  import opened Wrappers
  import opened Models
  import opened Calendar
  import Db

  /** The collections the job reads and writes. */
  datatype Billing = Billing(
    clients: map<Id, Client>, subscriptions: map<Id, Subscription>,
    invoices: map<Id, Invoice>, nextId: Id)

  predicate FreshIds(b: Billing) {
    Db.KeysBelow(b.subscriptions, b.nextId) && Db.KeysBelow(b.invoices, b.nextId)
  }

  /** A store call of the pass that can throw; the set of failing ones is a parameter. */
  datatype StoreOp = FindDue | SaveInvoice(sub: Id) | SaveSubscription(sub: Id)

  /** A due subscription as `find(...).populate('client')` returns it. */
  datatype DueEntry = DueEntry(id: Id, sub: Subscription, client: Option<Client>)

  /** An invoice the pass created, and the subscription it was created for. */
  datatype Created = Created(sub: Id, invoice: Id)

  datatype Outcome = NothingDue | Completed | Aborted(at: Option<Id>)

  datatype Report = Report(outcome: Outcome, created: seq<Created>)

  /** The next due date: one calendar month or one calendar year later. */
  function NextDueDate(d: Date, f: Frequency): (r: Date)
    ensures Before(d, r)
    ensures r == (if f == Monthly then AddMonth(d) else AddYear(d))
  {
    match f
    case Monthly => AddMonth(d)
    case Yearly => AddYear(d)
  }

  predicate IsDue(s: Subscription, now: Date) {
    AtOrBefore(s.nextDueDate, now)
  }

  /** The due subscriptions, in scan order, each with its client if that still exists. */
  function FindDueSubscriptions(b: Billing, now: Date): (due: seq<DueEntry>)
    ensures forall i :: 0 <= i < |due| ==>
      && due[i].id in b.subscriptions && due[i].sub == b.subscriptions[due[i].id]
      && IsDue(due[i].sub, now)
      && due[i].client == (if due[i].sub.client in b.clients then Some(b.clients[due[i].sub.client]) else None)
    ensures forall i, j :: 0 <= i < j < |due| ==> due[i].id < due[j].id
  {
    var ids := Db.Scan(b.subscriptions, s => IsDue(s, now), b.nextId);
    seq(|ids|, i requires 0 <= i < |ids| =>
      var s := b.subscriptions[ids[i]];
      DueEntry(ids[i], s, if s.client in b.clients then Some(b.clients[s.client]) else None))
  }

  /** Every subscription due at `now` is found, however long ago it fell due. */
  lemma FindDueIsComplete(b: Billing, now: Date, id: Id)
    requires FreshIds(b)
    requires id in b.subscriptions && IsDue(b.subscriptions[id], now)
    ensures exists i :: 0 <= i < |FindDueSubscriptions(b, now)| && FindDueSubscriptions(b, now)[i].id == id
  {
    var ids := Db.Scan(b.subscriptions, s => IsDue(s, now), b.nextId);
    var i :| 0 <= i < |ids| && ids[i] == id;
    assert FindDueSubscriptions(b, now)[i].id == id;
  }

  /** The invoice generated for a subscription: a pending snapshot of it and of its client. */
  function Snapshot(sub: Subscription, client: Client, now: Date): (inv: Invoice)
    ensures inv.user == sub.user && inv.description == sub.description && inv.amount == sub.amount
    ensures inv.clientName == client.name && inv.clientEmail == client.email
    ensures inv.status == Pending && inv.createdAt == now
  {
    NewInvoice(sub.user, client.name, client.email, sub.description, sub.amount, Some(Pending), now)
  }

  /** The state after one iteration, the invoice it saved if any, and whether it completed. */
  datatype StepResult = StepResult(b: Billing, invoice: Option<Id>, ok: bool)

  /**
   * One iteration of the loop.  It touches at most the entry's own
   * subscription, and adds at most one invoice, a snapshot, under the next id.
   */
  function Step(b: Billing, e: DueEntry, now: Date, failing: set<StoreOp>): (s: StepResult)
    ensures s.b.clients == b.clients
    ensures s.b.nextId == b.nextId + (if s.invoice.Some? then 1 else 0)
    ensures s.invoice.None? ==> s.b.invoices == b.invoices
    ensures s.invoice.Some? ==>
      && e.client.Some? && s.invoice.value == b.nextId
      && s.b.invoices == b.invoices[b.nextId := Snapshot(e.sub, e.client.value, now)]
    ensures e.client.None? ==> s == StepResult(b, None, true)
    ensures !s.ok ==> s.b.subscriptions == b.subscriptions
    ensures s.ok && e.client.Some? ==>
      && s.invoice.Some?
      && s.b.subscriptions == b.subscriptions[e.id := e.sub.(nextDueDate := NextDueDate(e.sub.nextDueDate, e.sub.frequency))]
    ensures forall id :: id != e.id ==>
      (id in s.b.subscriptions <==> id in b.subscriptions)
      && (id in b.subscriptions ==> s.b.subscriptions[id] == b.subscriptions[id])
  {
    if e.client.None? then StepResult(b, None, true)
    else
      var inv := Snapshot(e.sub, e.client.value, now);
      if SaveInvoice(e.id) in failing || !InvoiceValid(inv) then StepResult(b, None, false)
      else
        var id := b.nextId;
        var b1 := b.(invoices := b.invoices[id := inv], nextId := id + 1);
        var sub := e.sub.(nextDueDate := NextDueDate(e.sub.nextDueDate, e.sub.frequency));
        if SaveSubscription(e.id) in failing || !SubscriptionValid(sub) then StepResult(b1, Some(id), false)
        else StepResult(b1.(subscriptions := b1.subscriptions[e.id := sub]), Some(id), true)
  }

  /** The result of the walk: the final state, the invoices created, and the index of the entry that threw. */
  datatype PassResult = PassResult(b: Billing, created: seq<Created>, abortedAt: Option<nat>)

  /** The loop over the due list. */
  function Pass(b: Billing, due: seq<DueEntry>, now: Date, failing: set<StoreOp>): (r: PassResult)
    ensures r.abortedAt.Some? ==> r.abortedAt.value < |due|
    decreases |due|
  {
    if due == [] then PassResult(b, [], None)
    else
      var s := Step(b, due[0], now, failing);
      var here := if s.invoice.Some? then [Created(due[0].id, s.invoice.value)] else [];
      if !s.ok then PassResult(s.b, here, Some(0))
      else
        var rest := Pass(s.b, due[1..], now, failing);
        PassResult(rest.b, here + rest.created, if rest.abortedAt.Some? then Some(rest.abortedAt.value + 1) else None)
  }

  /** The whole of `checkAndCreateInvoices`, from the state it starts in. */
  function Run(b: Billing, now: Date, failing: set<StoreOp>): (r: (Billing, Report))
    ensures r.1.outcome == Aborted(None) <==> FindDue in failing
    ensures r.1.outcome == NothingDue <==> FindDue !in failing && FindDueSubscriptions(b, now) == []
    ensures r.1.outcome.NothingDue? || r.1.outcome == Aborted(None) ==> r.0 == b && r.1.created == []
    ensures r.1.outcome.Aborted? && r.1.outcome.at.Some? ==> r.1.outcome.at.value in Ids(FindDueSubscriptions(b, now))
  {
    if FindDue in failing then (b, Report(Aborted(None), []))
    else
      var due := FindDueSubscriptions(b, now);
      if |due| == 0 then (b, Report(NothingDue, []))
      else
        var p := Pass(b, due, now, failing);
        if p.abortedAt.Some? then
          assert due[p.abortedAt.value] in due;
          (p.b, Report(Aborted(Some(due[p.abortedAt.value].id)), p.created))
        else
          (p.b, Report(Completed, p.created))
  }

  /** The subscription ids of a due list. */
  function Ids(due: seq<DueEntry>): set<Id> {
    set e | e in due :: e.id
  }

  predicate IdsIncreasing(due: seq<DueEntry>) {
    forall i, j :: 0 <= i < j < |due| ==> due[i].id < due[j].id
  }

  /** No invoice in `created` was made for subscription `id`. */
  predicate NoInvoiceFor(created: seq<Created>, id: Id) {
    forall c :: c in created ==> c.sub != id
  }

  /** A walk leaves the clients alone and adds the invoices it reports, under fresh consecutive ids. */
  lemma {:induction false} PassInvoices(b: Billing, due: seq<DueEntry>, now: Date, failing: set<StoreOp>)
    requires Db.KeysBelow(b.invoices, b.nextId)
    ensures var r := Pass(b, due, now, failing);
      && r.b.clients == b.clients
      && r.b.nextId == b.nextId + |r.created|
      && Db.KeysBelow(r.b.invoices, r.b.nextId)
      && (forall i :: 0 <= i < |r.created| ==> r.created[i].invoice == b.nextId + i)
      && (forall id :: id in r.b.invoices <==> id in b.invoices || b.nextId <= id < r.b.nextId)
      && (forall id :: id in b.invoices ==> r.b.invoices[id] == b.invoices[id])
    decreases |due|
  {
    if due != [] {
      var s := Step(b, due[0], now, failing);
      if s.ok {
        PassInvoices(s.b, due[1..], now, failing);
      }
    }
  }

  /** A walk changes only subscriptions on its list, and reports invoices only for them. */
  lemma {:induction false} PassSubscriptions(b: Billing, due: seq<DueEntry>, now: Date, failing: set<StoreOp>)
    ensures var r := Pass(b, due, now, failing);
      && (forall c :: c in r.created ==> c.sub in Ids(due))
      && (forall id :: id !in Ids(due) ==>
            (id in r.b.subscriptions <==> id in b.subscriptions)
            && (id in b.subscriptions ==> r.b.subscriptions[id] == b.subscriptions[id]))
    decreases |due|
  {
    if due != [] {
      var s := Step(b, due[0], now, failing);
      assert due[0] in due;
      if s.ok {
        PassSubscriptions(s.b, due[1..], now, failing);
        assert forall e :: e in due[1..] ==> e in due;
      }
    }
  }

  predicate CreatedIncreasing(created: seq<Created>) {
    forall i, j :: 0 <= i < j < |created| ==> created[i].sub < created[j].sub
  }

  /** The invoices of a walk over an increasing list are for increasing, hence distinct, subscriptions. */
  lemma {:induction false} PassCreatedIncreasing(b: Billing, due: seq<DueEntry>, now: Date, failing: set<StoreOp>)
    requires Db.KeysBelow(b.invoices, b.nextId)
    requires IdsIncreasing(due)
    ensures CreatedIncreasing(Pass(b, due, now, failing).created)
    decreases |due|
  {
    if due != [] {
      var s := Step(b, due[0], now, failing);
      if s.ok {
        var here := if s.invoice.Some? then [Created(due[0].id, s.invoice.value)] else [];
        var rest := Pass(s.b, due[1..], now, failing).created;
        TailAfterHead(due);
        PassSubscriptions(s.b, due[1..], now, failing);
        PassCreatedIncreasing(s.b, due[1..], now, failing);
        PrependIncreasing(here, rest, due[0].id);
      }
    }
  }

  /** The rest of an increasing list is increasing, and its ids all come after the first. */
  lemma TailAfterHead(due: seq<DueEntry>)
    requires IdsIncreasing(due) && due != []
    ensures IdsIncreasing(due[1..])
    ensures forall id :: id in Ids(due[1..]) ==> due[0].id < id
  {
    forall e | e in due[1..] ensures due[0].id < e.id {
      var j :| 0 <= j < |due[1..]| && due[1..][j] == e;
      assert due[j + 1] == e;
    }
  }

  /** An invoice for `id` in front of increasing invoices for later subscriptions keeps them increasing. */
  lemma PrependIncreasing(here: seq<Created>, rest: seq<Created>, id: Id)
    requires |here| <= 1 && forall c :: c in here ==> c.sub == id
    requires CreatedIncreasing(rest) && forall c :: c in rest ==> id < c.sub
    ensures CreatedIncreasing(here + rest)
  {
    if here != [] {
      forall i, j | 0 <= i < j < |here + rest| ensures (here + rest)[i].sub < (here + rest)[j].sub {
        if i == 0 {
          assert (here + rest)[j] == rest[j - 1];
          assert rest[j - 1] in rest;
        } else {
          assert (here + rest)[i] == rest[i - 1] && (here + rest)[j] == rest[j - 1];
        }
      }
    } else {
      assert here + rest == rest;
    }
  }

  /** Subscription `id` is as it was in `b`, or absent in both. */
  predicate SubscriptionKept(b: Billing, b2: Billing, id: Id) {
    && (id in b2.subscriptions <==> id in b.subscriptions)
    && (id in b.subscriptions ==> b2.subscriptions[id] == b.subscriptions[id])
  }

  /**
   * What processing entry `e` leaves behind: nothing, when its client is gone;
   * otherwise a snapshot invoice among those created and the subscription
   * saved with its due date moved on.
   */
  predicate Handled(b: Billing, b2: Billing, created: seq<Created>, e: DueEntry, now: Date) {
    if e.client.None? then
      NoInvoiceFor(created, e.id) && SubscriptionKept(b, b2, e.id)
    else
      && (exists i :: 0 <= i < |created| && created[i].sub == e.id
            && created[i].invoice in b2.invoices
            && b2.invoices[created[i].invoice] == Snapshot(e.sub, e.client.value, now))
      && e.id in b2.subscriptions
      && b2.subscriptions[e.id] == e.sub.(nextDueDate := NextDueDate(e.sub.nextDueDate, e.sub.frequency))
  }

  /** The first entry's id occurs nowhere else on an increasing list. */
  lemma HeadIdNotInTail(due: seq<DueEntry>)
    requires IdsIncreasing(due) && due != []
    ensures due[0].id !in Ids(due[1..])
  {
    forall e | e in due[1..] ensures e.id != due[0].id {
      var j :| 0 <= j < |due[1..]| && due[1..][j] == e;
      assert due[j + 1] == e;
    }
  }

  /** The fate of the first entry of a walk: handled if its step completed, its subscription unsaved if not. */
  lemma {:induction false} PassHead(b: Billing, due: seq<DueEntry>, now: Date, failing: set<StoreOp>)
    requires Db.KeysBelow(b.invoices, b.nextId)
    requires IdsIncreasing(due) && due != []
    ensures var r := Pass(b, due, now, failing);
      && (r.abortedAt.None? || 0 < r.abortedAt.value ==> Handled(b, r.b, r.created, due[0], now))
      && (r.abortedAt.Some? && r.abortedAt.value <= 0 ==> SubscriptionKept(b, r.b, due[0].id))
  {
    var e := due[0];
    var s := Step(b, e, now, failing);
    if s.ok {
      var here := if s.invoice.Some? then [Created(e.id, s.invoice.value)] else [];
      var rest := Pass(s.b, due[1..], now, failing);
      var r := Pass(b, due, now, failing);
      assert r == Resume(here, 1, rest);
      HeadIdNotInTail(due);
      PassSubscriptions(s.b, due[1..], now, failing);
      assert NoInvoiceFor(rest.created, e.id);
      assert SubscriptionKept(s.b, rest.b, e.id);
      if e.client.Some? {
        PassInvoices(s.b, due[1..], now, failing);
        assert r.created[0] == Created(e.id, b.nextId);
        assert r.b.invoices[b.nextId] == Snapshot(e.sub, e.client.value, now);
      }
    }
  }

  /** What an earlier step left alone, and a later walk handled, the whole walk handled. */
  lemma HandledAfter(b: Billing, b1: Billing, here: seq<Created>, b2: Billing, rest: seq<Created>, e: DueEntry, now: Date)
    requires SubscriptionKept(b, b1, e.id) && NoInvoiceFor(here, e.id)
    requires Handled(b1, b2, rest, e, now)
    ensures Handled(b, b2, here + rest, e, now)
  {
    if e.client.Some? {
      var i :| 0 <= i < |rest| && rest[i].sub == e.id
        && rest[i].invoice in b2.invoices && b2.invoices[rest[i].invoice] == Snapshot(e.sub, e.client.value, now);
      assert (here + rest)[|here| + i] == rest[i];
    }
  }

  /**
   * The fate of entry `k` of the walk: handled when the walk got past it; its
   * subscription unsaved when the walk stopped at it or before; and no invoice
   * for it when the walk stopped before it.
   */
  lemma {:induction false} PassEntry(b: Billing, due: seq<DueEntry>, k: nat, now: Date, failing: set<StoreOp>)
    requires Db.KeysBelow(b.invoices, b.nextId)
    requires IdsIncreasing(due)
    requires k < |due|
    ensures var r := Pass(b, due, now, failing);
      && (r.abortedAt.None? || k < r.abortedAt.value ==> Handled(b, r.b, r.created, due[k], now))
      && (r.abortedAt.Some? && r.abortedAt.value <= k ==> SubscriptionKept(b, r.b, due[k].id))
      && (r.abortedAt.Some? && r.abortedAt.value < k ==> NoInvoiceFor(r.created, due[k].id))
    decreases |due|
  {
    if k == 0 {
      PassHead(b, due, now, failing);
    } else {
      PassLater(b, due, k, now, failing);
    }
  }

  /** `PassEntry` for an entry after the first: the first step leaves it alone. */
  lemma {:induction false} PassLater(b: Billing, due: seq<DueEntry>, k: nat, now: Date, failing: set<StoreOp>)
    requires Db.KeysBelow(b.invoices, b.nextId)
    requires IdsIncreasing(due)
    requires 0 < k < |due|
    ensures var r := Pass(b, due, now, failing);
      && (r.abortedAt.None? || k < r.abortedAt.value ==> Handled(b, r.b, r.created, due[k], now))
      && (r.abortedAt.Some? && r.abortedAt.value <= k ==> SubscriptionKept(b, r.b, due[k].id))
      && (r.abortedAt.Some? && r.abortedAt.value < k ==> NoInvoiceFor(r.created, due[k].id))
    decreases |due|, 0
  {
    var s := Step(b, due[0], now, failing);
    var here := if s.invoice.Some? then [Created(due[0].id, s.invoice.value)] else [];
    var e := due[k];
    assert e.id != due[0].id;
    assert SubscriptionKept(b, s.b, e.id) && NoInvoiceFor(here, e.id);
    if s.ok {
      var rest := Pass(s.b, due[1..], now, failing);
      assert Pass(b, due, now, failing) == Resume(here, 1, rest);
      assert due[1..][k - 1] == e;
      PassEntry(s.b, due[1..], k - 1, now, failing);
      if rest.abortedAt.None? || k - 1 < rest.abortedAt.value {
        HandledAfter(b, s.b, here, rest.b, rest.created, e, now);
      }
    }
  }

  /** The outcome says the pass got past subscription `id`. */
  predicate GotPast(o: Outcome, id: Id) {
    o == Completed || (o.Aborted? && o.at.Some? && id < o.at.value)
  }

  /** The clients and existing invoices survive a pass; the new invoices are exactly the reported ones. */
  lemma RunInvoices(b: Billing, now: Date, failing: set<StoreOp>)
    requires FreshIds(b)
    ensures var (b2, rep) := Run(b, now, failing);
      && b2.clients == b.clients
      && b2.nextId == b.nextId + |rep.created|
      && Db.KeysBelow(b2.invoices, b2.nextId)
      && (forall i :: 0 <= i < |rep.created| ==> rep.created[i].invoice == b.nextId + i)
      && (forall id :: id in b2.invoices <==> id in b.invoices || b.nextId <= id < b2.nextId)
      && (forall id :: id in b.invoices ==> b2.invoices[id] == b.invoices[id])
  {
    if FindDue !in failing {
      PassInvoices(b, FindDueSubscriptions(b, now), now, failing);
    }
  }

  /** A subscription that is not due is left as it is, and gets no invoice. */
  lemma RunTouchesOnlyDue(b: Billing, now: Date, failing: set<StoreOp>, id: Id)
    requires id !in b.subscriptions || !IsDue(b.subscriptions[id], now)
    ensures var (b2, rep) := Run(b, now, failing);
      SubscriptionKept(b, b2, id) && NoInvoiceFor(rep.created, id)
  {
    if FindDue !in failing {
      var due := FindDueSubscriptions(b, now);
      PassSubscriptions(b, due, now, failing);
      assert id !in Ids(due);
    }
  }

  /** When nothing is due, a pass creates no invoice and changes nothing. */
  lemma RunNothingDue(b: Billing, now: Date, failing: set<StoreOp>)
    requires forall id :: id in b.subscriptions ==> !IsDue(b.subscriptions[id], now)
    ensures Run(b, now, failing).0 == b && Run(b, now, failing).1.created == []
  {
  }

  /** A pass creates at most one invoice per subscription, however many periods are overdue. */
  lemma RunOneInvoicePerSubscription(b: Billing, now: Date, failing: set<StoreOp>)
    requires FreshIds(b)
    ensures var rep := Run(b, now, failing).1;
      forall i, j :: 0 <= i < j < |rep.created| ==> rep.created[i].sub != rep.created[j].sub
  {
    if FindDue !in failing {
      var due := FindDueSubscriptions(b, now);
      if due != [] {
        var created := Pass(b, due, now, failing).created;
        assert Run(b, now, failing).1.created == created;
        PassCreatedIncreasing(b, due, now, failing);
      }
    }
  }

  /**
   * The fate of a due subscription.  When the pass got past it, it is handled:
   * skipped without change if its client is gone, otherwise invoiced once and
   * moved on by one period.  When the pass threw at it or earlier, it was not
   * saved; when it threw earlier, it got no invoice either.
   */
  lemma RunDueSubscription(b: Billing, now: Date, failing: set<StoreOp>, id: Id)
    requires FreshIds(b) && FindDue !in failing
    requires id in b.subscriptions && IsDue(b.subscriptions[id], now)
    ensures var (b2, rep) := Run(b, now, failing);
      var sub := b.subscriptions[id];
      var e := DueEntry(id, sub, if sub.client in b.clients then Some(b.clients[sub.client]) else None);
      && rep.outcome != NothingDue
      && (GotPast(rep.outcome, id) ==> Handled(b, b2, rep.created, e, now))
      && (rep.outcome.Aborted? && rep.outcome.at.Some? && rep.outcome.at.value <= id ==> SubscriptionKept(b, b2, id))
      && (rep.outcome.Aborted? && rep.outcome.at.Some? && rep.outcome.at.value < id ==> NoInvoiceFor(rep.created, id))
  {
    var due := FindDueSubscriptions(b, now);
    FindDueIsComplete(b, now, id);
    var k :| 0 <= k < |due| && due[k].id == id;
    PassEntry(b, due, k, now, failing);
    var r := Pass(b, due, now, failing);
    if r.abortedAt.Some? {
      IndexOrderIsIdOrder(due, k, r.abortedAt.value);
    }
  }

  /** On an increasing list, positions compare as their ids do. */
  lemma IndexOrderIsIdOrder(due: seq<DueEntry>, k: nat, a: nat)
    requires IdsIncreasing(due) && k < |due| && a < |due|
    ensures k < a <==> due[k].id < due[a].id
    ensures k == a <==> due[k].id == due[a].id
  {
  }

  /**
   * One pass moves an overdue subscription on by a single period only: when
   * that period too has already passed, the subscription is still due for the
   * next pass.
   */
  lemma RunLeavesOverdueDue(b: Billing, now: Date, failing: set<StoreOp>, id: Id)
    requires FreshIds(b) && FindDue !in failing
    requires id in b.subscriptions && b.subscriptions[id].client in b.clients
    requires var sub := b.subscriptions[id];
      IsDue(sub, now) && AtOrBefore(NextDueDate(sub.nextDueDate, sub.frequency), now)
    requires GotPast(Run(b, now, failing).1.outcome, id)
    ensures var b2 := Run(b, now, failing).0;
      id in b2.subscriptions && IsDue(b2.subscriptions[id], now)
  {
    RunDueSubscription(b, now, failing, id);
  }

  /** A monthly subscription due on 15 January is still due after a pass on 20 April: it moves to 15 February. */
  lemma ThreeMonthsOverdue()
    ensures NextDueDate(DateTime(2024, 1, 15, 0), Monthly) == DateTime(2024, 2, 15, 0)
    ensures AtOrBefore(DateTime(2024, 2, 15, 0), DateTime(2024, 4, 20, 0))
  {
  }

  function BillingOf(db: Db.Store): Billing
    reads db
  {
    Billing(db.clients, db.subscriptions, db.invoices, db.nextId)
  }

  /** A walk of the list from entry `k` on, seen from the start of the list. */
  function Resume(prefix: seq<Created>, k: nat, rest: PassResult): PassResult {
    PassResult(rest.b, prefix + rest.created, if rest.abortedAt.Some? then Some(rest.abortedAt.value + k) else None)
  }

  lemma ResumeTwice(c1: seq<Created>, k1: nat, c2: seq<Created>, k2: nat, rest: PassResult)
    ensures Resume(c1, k1, Resume(c2, k2, rest)) == Resume(c1 + c2, k1 + k2, rest)
  {
    assert c1 + (c2 + rest.created) == (c1 + c2) + rest.created;
  }

  /** Unfolds the walk from entry `k` by one iteration. */
  lemma PassUnfold(b: Billing, due: seq<DueEntry>, k: nat, now: Date, failing: set<StoreOp>)
    requires k < |due|
    ensures var s := Step(b, due[k], now, failing);
      var here := if s.invoice.Some? then [Created(due[k].id, s.invoice.value)] else [];
      Pass(b, due[k..], now, failing)
        == if s.ok then Resume(here, 1, Pass(s.b, due[k + 1..], now, failing)) else PassResult(s.b, here, Some(0))
  {
    assert due[k..][0] == due[k] && due[k..][1..] == due[k + 1..];
  }

  /**
   * The body of the loop for one due subscription: skip it, or save its
   * invoice and then the subscription with its new due date.
   */
  method ProcessOne(db: Db.Store, e: DueEntry, now: Date, failing: set<StoreOp>) returns (ok: bool, invoice: Option<Id>)
    requires db.Valid() && e.id in db.subscriptions
    modifies db
    ensures db.Valid()
    ensures db.subscriptions.Keys == old(db.subscriptions).Keys
    ensures StepResult(BillingOf(db), invoice, ok) == Step(old(BillingOf(db)), e, now, failing)
    ensures db.users == old(db.users)
  {
    if e.client.None? {
      return true, None;
    }
    var inv := Snapshot(e.sub, e.client.value, now);
    if SaveInvoice(e.id) in failing || !InvoiceValid(inv) {
      return false, None;
    }
    var id := db.NewId();
    db.invoices := db.invoices[id := inv];
    var nextDate := NextDueDate(e.sub.nextDueDate, e.sub.frequency);
    var sub := e.sub.(nextDueDate := nextDate);
    if SaveSubscription(e.id) in failing || !SubscriptionValid(sub) {
      return false, Some(id);
    }
    db.subscriptions := db.subscriptions[e.id := sub];
    return true, Some(id);
  }

  /** The job itself: the loop, inside its single try block, over the store. */
  method CheckAndCreateInvoices(db: Db.Store, now: Date, failing: set<StoreOp>) returns (report: Report)
    requires db.Valid()
    modifies db
    ensures db.Valid()
    ensures (BillingOf(db), report) == Run(old(BillingOf(db)), now, failing)
    ensures db.users == old(db.users)
  {
    if FindDue in failing {
      return Report(Aborted(None), []);
    }
    var due := FindDueSubscriptions(BillingOf(db), now);
    if |due| == 0 {
      return Report(NothingDue, []);
    }
    ghost var b0 := BillingOf(db);
    var created: seq<Created> := [];
    var k := 0;
    assert due[k..] == due;
    assert Pass(b0, due, now, failing) == Resume(created, k, Pass(b0, due[k..], now, failing));
    while k < |due|
      invariant 0 <= k <= |due|
      invariant db.users == old(db.users)
      invariant db.Valid()
      invariant db.subscriptions.Keys == b0.subscriptions.Keys
      invariant Pass(b0, due, now, failing) == Resume(created, k, Pass(BillingOf(db), due[k..], now, failing))
    {
      ghost var before := BillingOf(db);
      PassUnfold(before, due, k, now, failing);
      assert due[k].id in b0.subscriptions;
      var ok, invoice := ProcessOne(db, due[k], now, failing);
      var here := if invoice.Some? then [Created(due[k].id, invoice.value)] else [];
      if !ok {
        assert Pass(b0, due, now, failing) == PassResult(BillingOf(db), created + here, Some(k));
        return Report(Aborted(Some(due[k].id)), created + here);
      }
      ResumeTwice(created, k, here, 1, Pass(BillingOf(db), due[k + 1..], now, failing));
      created := created + here;
      k := k + 1;
    }
    assert created + [] == created;
    assert Pass(b0, due, now, failing) == PassResult(BillingOf(db), created, None);
    return Report(Completed, created);
  }
}
