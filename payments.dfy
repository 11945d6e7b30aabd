/**
 * The two payment endpoints.  `create-order` asks the gateway for an order
 * covering one of the caller's unpaid invoices, with the invoice id as the
 * order's receipt; `verify-payment` checks the gateway's callback signature,
 * an HMAC-SHA256 of `orderId|paymentId` under the shared secret, and on a
 * match marks the invoice named by the order's receipt as paid.
 *
 * The HMAC and the two gateway calls are parameters: `hmac(secret, message)`
 * is the hex digest, `createOrder` and `fetchOrder` answer `None` when the
 * gateway call throws.
 */
module Payments {
  import opened Wrappers
  import opened Text
  import opened Models
  import Db

  /** The options passed to `orders.create`. */
  datatype OrderRequest = OrderRequest(amount: int, currency: string, receipt: Id)

  /** A gateway order, as `orders.fetch` returns it. */
  datatype Order = Order(id: string, amount: int, currency: string, receipt: Id)

  /** The responses of `create-order`: the order, 404, 400, or 500 when the gateway throws. */
  datatype CreateOrderResult = OrderCreated(order: Order) | InvoiceNotFound | AlreadyPaid | GatewayError

  /** The responses of `verify-payment`: success, a 400 with `success: false`, or 500. */
  datatype VerifyResult = Verified | VerificationFailed | ServerError

  /** `Math.round(amount * 100)`: the nearest whole number of paise, halves rounded up. */
  function AmountInPaise(amount: real): (paise: int)
    ensures paise as real <= amount * 100.0 + 0.5 < paise as real + 1.0
  {
    (amount * 100.0 + 0.5).Floor
  }

  /** An amount with whole paise is converted exactly. */
  lemma AmountInPaiseExact(amount: real, paise: int)
    requires amount * 100.0 == paise as real
    ensures AmountInPaise(amount) == paise
  {
  }

  /** The order asked for an invoice: its amount in paise, in rupees, with the invoice id as receipt. */
  function OrderFor(id: Id, inv: Invoice): (req: OrderRequest)
    ensures req.amount == AmountInPaise(inv.amount)
    ensures req.currency == "INR" && req.receipt == id
  {
    OrderRequest(AmountInPaise(inv.amount), "INR", id)
  }

  /** `create-order` for invoice `id` on behalf of `user`; it never writes to the store. */
  function CreateOrder(invoices: map<Id, Invoice>, id: Id, user: Id,
                       createOrder: OrderRequest -> Option<Order>): (r: CreateOrderResult)
    ensures r == InvoiceNotFound <==> !Db.OwnsInvoice(invoices, id, user)
    ensures r == AlreadyPaid <==> Db.OwnsInvoice(invoices, id, user) && invoices[id].status == Paid
    ensures r.OrderCreated? <==>
      Db.OwnsInvoice(invoices, id, user) && invoices[id].status != Paid && createOrder(OrderFor(id, invoices[id])).Some?
    ensures r.OrderCreated? ==> Some(r.order) == createOrder(OrderFor(id, invoices[id]))
  {
    if !Db.OwnsInvoice(invoices, id, user) then InvoiceNotFound
    else if invoices[id].status == Paid then AlreadyPaid
    else
      match createOrder(OrderFor(id, invoices[id]))
      case None => GatewayError
      case Some(order) => OrderCreated(order)
  }

  /** The two refusals are decided before the gateway is called: no gateway can change them. */
  lemma CreateOrderRefusalsIgnoreGateway(invoices: map<Id, Invoice>, id: Id, user: Id,
                                         g1: OrderRequest -> Option<Order>, g2: OrderRequest -> Option<Order>)
    ensures CreateOrder(invoices, id, user, g1) == InvoiceNotFound <==> CreateOrder(invoices, id, user, g2) == InvoiceNotFound
    ensures CreateOrder(invoices, id, user, g1) == AlreadyPaid <==> CreateOrder(invoices, id, user, g2) == AlreadyPaid
  {
  }

  /** The message the callback signature is computed over. */
  function SignatureMessage(orderId: string, paymentId: string): (msg: string)
    ensures |msg| == |orderId| + 1 + |paymentId|
  {
    orderId + "|" + paymentId
  }

  /** An order id has no `|` in it, so the two ids can be read back from the message. */
  lemma SignatureMessageSplits(orderId: string, paymentId: string)
    requires '|' !in orderId
    ensures var msg := SignatureMessage(orderId, paymentId);
      BeforeFirst(msg, '|') == orderId && msg[|orderId| + 1..] == paymentId
  {
    BeforeFirstOf(orderId, '|', paymentId);
  }

  /** `createHmac('sha256', secret).update(orderId + "|" + paymentId).digest('hex')`. */
  function ExpectedSignature(hmac: (string, string) -> string, secret: string,
                             orderId: string, paymentId: string): string
  {
    hmac(secret, SignatureMessage(orderId, paymentId))
  }

  /**
   * `verify-payment`: the invoice collection afterwards, and the response.  A
   * wrong signature fails without a gateway call; a right one fetches the
   * order and marks the invoice named by its receipt as paid, whoever owns it
   * and whether or not it exists.
   */
  function VerifyPaymentSpec(invoices: map<Id, Invoice>, orderId: string, paymentId: string, signature: string,
                             hmac: (string, string) -> string, secret: string,
                             fetchOrder: string -> Option<Order>): (r: (map<Id, Invoice>, VerifyResult))
    ensures r.1 == VerificationFailed <==> ExpectedSignature(hmac, secret, orderId, paymentId) != signature
    ensures r.1 == ServerError <==>
      ExpectedSignature(hmac, secret, orderId, paymentId) == signature && fetchOrder(orderId).None?
    ensures r.1 != Verified ==> r.0 == invoices
    ensures r.1 == Verified ==> r.0 == Db.SetPaid(invoices, fetchOrder(orderId).value.receipt)
  {
    if ExpectedSignature(hmac, secret, orderId, paymentId) != signature then (invoices, VerificationFailed)
    else
      match fetchOrder(orderId)
      case None => (invoices, ServerError)
      case Some(order) => (Db.SetPaid(invoices, order.receipt), Verified)
  }

  /** The handler over the store. */
  method VerifyPayment(db: Db.Store, orderId: string, paymentId: string, signature: string,
                       hmac: (string, string) -> string, secret: string,
                       fetchOrder: string -> Option<Order>) returns (result: VerifyResult)
    requires db.Valid()
    modifies db`invoices
    ensures db.Valid()
    ensures (db.invoices, result) == VerifyPaymentSpec(old(db.invoices), orderId, paymentId, signature, hmac, secret, fetchOrder)
  {
    var body := orderId + "|" + paymentId;
    var expected := hmac(secret, body);
    if expected == signature {
      var order := fetchOrder(orderId);
      if order.None? {
        return ServerError;
      }
      var invoiceId := order.value.receipt;
      db.invoices := Db.SetPaid(db.invoices, invoiceId);
      result := Verified;
    } else {
      result := VerificationFailed;
    }
  }

  /**
   * A replayed callback changes nothing more and still succeeds: the invoice
   * stays paid.
   */
  lemma VerifyPaymentIdempotent(invoices: map<Id, Invoice>, orderId: string, paymentId: string, signature: string,
                                hmac: (string, string) -> string, secret: string,
                                fetchOrder: string -> Option<Order>)
    ensures var (once, r1) := VerifyPaymentSpec(invoices, orderId, paymentId, signature, hmac, secret, fetchOrder);
      var (twice, r2) := VerifyPaymentSpec(once, orderId, paymentId, signature, hmac, secret, fetchOrder);
      twice == once && r2 == r1
  {
    var (once, r1) := VerifyPaymentSpec(invoices, orderId, paymentId, signature, hmac, secret, fetchOrder);
    if r1 == Verified {
      Db.SetPaidIdempotent(invoices, fetchOrder(orderId).value.receipt);
    }
  }

  /**
   * The whole payment: when the gateway keeps the receipt of the order it
   * created, and the callback carries the right signature for that order,
   * the invoice paid for is marked paid and no other invoice changes.
   */
  lemma PaymentMarksTheInvoicePaid(invoices: map<Id, Invoice>, id: Id, user: Id,
                                   createOrder: OrderRequest -> Option<Order>, paymentId: string,
                                   hmac: (string, string) -> string, secret: string,
                                   fetchOrder: string -> Option<Order>)
    requires CreateOrder(invoices, id, user, createOrder).OrderCreated?
    requires var order := CreateOrder(invoices, id, user, createOrder).order;
      order.receipt == OrderFor(id, invoices[id]).receipt && fetchOrder(order.id) == Some(order)
    ensures var order := CreateOrder(invoices, id, user, createOrder).order;
      var signature := ExpectedSignature(hmac, secret, order.id, paymentId);
      var (after, result) := VerifyPaymentSpec(invoices, order.id, paymentId, signature, hmac, secret, fetchOrder);
      && result == Verified
      && after.Keys == invoices.Keys
      && after[id] == invoices[id].(status := Paid)
      && (forall k :: k in invoices && k != id ==> after[k] == invoices[k])
  {
  }
}
