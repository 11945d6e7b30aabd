/**
 * The invoice routes: the upload filter, the checks and clean-up around the
 * AI parsing step, manual creation with its defaults, and the owner-scoped
 * list, mark-paid and delete operations.
 */
module InvoiceRoutes {
  import opened Wrappers
  import opened Text
  import opened Calendar
  import opened Models
  import opened Sorting
  import Db

  // ------------------------------------------------------------ upload filter

  const RejectedFileMessage: string := "Invalid file type. Only PDF and image files are allowed."
  const NoFileMessage: string := "No file uploaded or file type rejected by server."

  /** The filter's verdict, and the message it leaves on the request when it rejects. */
  datatype FilterResult = FilterResult(accept: bool, error: Option<string>)

  /** Multer's `fileFilter`: PDFs and images only. */
  function FileFilter(mimetype: string): (r: FilterResult)
    ensures r.accept <==> mimetype == "application/pdf" || StartsWith(mimetype, "image/")
    ensures r.accept ==> r.error.None?
    ensures !r.accept ==> r.error == Some(RejectedFileMessage)
  {
    if mimetype == "application/pdf" || StartsWith(mimetype, "image/") then FilterResult(true, None)
    else FilterResult(false, Some(RejectedFileMessage))
  }

  /**
   * The first check of the upload route, given the mimetype of the uploaded
   * file if there was one: the 400 message, or `None` when the file is kept.
   */
  function UploadRejection(mimetype: Option<string>): (message: Option<string>)
    ensures message.None? <==> mimetype.Some? && FileFilter(mimetype.value).accept
    ensures mimetype.Some? && !FileFilter(mimetype.value).accept ==> message == Some(RejectedFileMessage)
    ensures mimetype.None? ==> message == Some(NoFileMessage)
  {
    match mimetype
    case None => Some(NoFileMessage)
    case Some(m) =>
      var f := FileFilter(m);
      if f.accept then None else Some(f.error.GetOr(NoFileMessage))
  }

  // --------------------------------------------------------------- parse-text

  /** A JSON value, as a request body field or `JSON.parse` yields it. */
  datatype Json = JNull | JBool(b: bool) | JNum(n: real) | JStr(s: string) | JArr(items: seq<Json>) | JObj(fields: map<string, Json>)

  /** JavaScript truthiness of a JSON value. */
  predicate Truthy(j: Json) {
    match j
    case JNull => false
    case JBool(b) => b
    case JNum(n) => n != 0.0
    case JStr(s) => s != ""
    case _ => true
  }

  /**
   * The input check of `parse-text`: the text to parse, or `None` for the 400
   * response when it is missing, not a string, or white space only.
   */
  function ParseTextInput(text: Option<Json>): (r: Option<string>)
    ensures r.Some? <==>
      text.Some? && text.value.JStr? && exists i :: 0 <= i < |text.value.s| && !IsSpace(text.value.s[i])
    ensures r.Some? ==> r.value == text.value.s
  {
    if text.None? || !Truthy(text.value) || !text.value.JStr? then None
    else
      var s := text.value.s;
      TrimEmptyIffAllSpace(s);
      if |Trim(s)| == 0 then None else Some(s)
  }

  const OpeningFence: string := "```json"
  const ClosingFence: string := "```"

  /** `replace(/^```json\s*\/, '')`. */
  function StripOpeningFence(s: string): (r: string)
    ensures |r| <= |s|
    ensures !StartsWith(s, OpeningFence) ==> r == s
    ensures StartsWith(s, OpeningFence) ==> |r| <= |s| - |OpeningFence| && (r == [] || !IsSpace(r[0]))
  {
    if StartsWith(s, OpeningFence) then TrimStart(s[|OpeningFence|..]) else s
  }

  /**
   * `replace(/\s*```$/, '')`: the leftmost match starts where the white space
   * before the final fence starts.
   */
  function StripClosingFence(s: string): (r: string)
    ensures |r| <= |s|
    ensures !EndsWith(s, ClosingFence) ==> r == s
    ensures EndsWith(s, ClosingFence) ==> |r| <= |s| - |ClosingFence| && (r == [] || !IsSpace(r[|r| - 1]))
  {
    if EndsWith(s, ClosingFence) then TrimEnd(s[..|s| - |ClosingFence|]) else s
  }

  /** The clean-up of the model's reply before `JSON.parse`. */
  function CleanReply(reply: string): (r: string)
    ensures |r| <= |reply|
    ensures r == [] || (!IsSpace(r[0]) && !IsSpace(r[|r| - 1]))
  {
    var unopened := StripOpeningFence(reply);
    var unfenced := StripClosingFence(unopened);
    assert |unfenced| <= |unopened| <= |reply|;
    TrimShape(unfenced);
    Trim(unfenced)
  }

  lemma {:induction false} TrimStartSkipsSpace(ws: string, t: string)
    requires AllSpace(ws) && (t == [] || !IsSpace(t[0]))
    ensures TrimStart(ws + t) == t
    decreases |ws|
  {
    if ws != [] {
      assert (ws + t)[1..] == ws[1..] + t;
      TrimStartSkipsSpace(ws[1..], t);
    } else {
      assert ws + t == t;
    }
  }

  lemma {:induction false} TrimEndSkipsSpace(t: string, ws: string)
    requires AllSpace(ws) && (t == [] || !IsSpace(t[|t| - 1]))
    ensures TrimEnd(t + ws) == t
    decreases |ws|
  {
    if ws != [] {
      assert (t + ws)[..|t + ws| - 1] == t + ws[..|ws| - 1];
      TrimEndSkipsSpace(t, ws[..|ws| - 1]);
    } else {
      assert t + ws == t;
    }
  }

  /** The opening fence goes with the white space after it. */
  lemma StripOpeningFenceOf(ws: string, rest: string)
    requires AllSpace(ws) && rest != [] && !IsSpace(rest[0])
    ensures StripOpeningFence(OpeningFence + ws + rest) == rest
  {
    var reply := OpeningFence + ws + rest;
    assert reply[..|OpeningFence|] == OpeningFence;
    assert reply[|OpeningFence|..] == ws + rest;
    TrimStartSkipsSpace(ws, rest);
  }

  /** The closing fence goes with the white space before it. */
  lemma StripClosingFenceOf(body: string, ws: string)
    requires AllSpace(ws) && body != [] && !IsSpace(body[|body| - 1])
    ensures StripClosingFence(body + ws + ClosingFence) == body
  {
    var unfenced := body + ws + ClosingFence;
    assert unfenced[|unfenced| - |ClosingFence|..] == ClosingFence;
    assert unfenced[..|unfenced| - |ClosingFence|] == body + ws;
    TrimEndSkipsSpace(body, ws);
  }

  /** A trimmed body wrapped in a ```json fence, with any white space inside it, comes out as it went in. */
  lemma CleanFencedReply(body: string, ws1: string, ws2: string)
    requires AllSpace(ws1) && AllSpace(ws2)
    requires body != [] && !IsSpace(body[0]) && !IsSpace(body[|body| - 1])
    ensures CleanReply(OpeningFence + ws1 + body + ws2 + ClosingFence) == body
  {
    var rest := body + ws2 + ClosingFence;
    assert OpeningFence + ws1 + body + ws2 + ClosingFence == OpeningFence + ws1 + rest;
    StripOpeningFenceOf(ws1, rest);
    StripClosingFenceOf(body, ws2);
    TrimKeepsTrimmed(body);
  }

  /** A reply without fences is only trimmed. */
  lemma CleanUnfencedReply(reply: string)
    requires !StartsWith(reply, OpeningFence) && !EndsWith(reply, ClosingFence)
    ensures CleanReply(reply) == Trim(reply)
  {
  }

  /** The keys the response always carries. */
  const RequiredKeys: seq<string> := ["clientName", "clientEmail", "invoiceId", "invoiceDate", "dueDate", "description", "totalAmount"]

  /** The response of `parse-text` after the model replied: the data, or 500. */
  datatype ParseResponse = Parsed(data: Json) | ParseServerError

  /**
   * The `forEach` over the required keys: every missing one is set to null,
   * and every present one is kept as it is.
   */
  method FillRequiredKeys(fields: map<string, Json>) returns (r: map<string, Json>)
    ensures r.Keys == fields.Keys + set k | k in RequiredKeys
    ensures forall k :: k in fields ==> r[k] == fields[k]
    ensures forall k :: k in r && k !in fields ==> r[k] == JNull
  {
    r := fields;
    for i := 0 to |RequiredKeys|
      invariant r.Keys == fields.Keys + set k | k in RequiredKeys[..i]
      invariant forall k :: k in fields ==> r[k] == fields[k]
      invariant forall k :: k in r && k !in fields ==> r[k] == JNull
    {
      var key := RequiredKeys[i];
      assert RequiredKeys[..i + 1] == RequiredKeys[..i] + [key];
      if key !in r {
        r := r[key := JNull];
      }
    }
    assert RequiredKeys[..|RequiredKeys|] == RequiredKeys;
  }

  /**
   * The `totalAmount` step: a non-empty string is replaced by the number
   * `parseFloat` reads from its digits and dots, or by null; a missing one is
   * set to null; any other value is kept.
   */
  function WithTotal(fields: map<string, Json>, parseFloat: string -> Option<real>): (d: map<string, Json>)
    ensures d.Keys == fields.Keys + {"totalAmount"}
    ensures forall k :: k in fields && k != "totalAmount" ==> d[k] == fields[k]
    ensures "totalAmount" !in fields ==> d["totalAmount"] == JNull
    ensures "totalAmount" in fields && !(fields["totalAmount"].JStr? && fields["totalAmount"].s != "") ==>
      d["totalAmount"] == fields["totalAmount"]
  {
    if "totalAmount" in fields && Truthy(fields["totalAmount"]) && fields["totalAmount"].JStr? then
      var amount := parseFloat(DigitsAndDotsOf(fields["totalAmount"].s));
      fields["totalAmount" := if amount.None? then JNull else JNum(amount.value)]
    else if "totalAmount" !in fields then
      fields["totalAmount" := JNull]
    else
      fields
  }

  /**
   * The post-processing of the parsed reply, given `parseFloat` (with `None`
   * for NaN).  An object gets a numeric or null `totalAmount` in place of a
   * non-empty string, and every required key.  An array passes through: the
   * properties set on it do not survive serialisation.  Reading a property of
   * `null`, or using `in` on a primitive, throws, which the route answers with 500.
   */
  method PostProcess(parsed: Json, parseFloat: string -> Option<real>) returns (r: ParseResponse)
    ensures r.ParseServerError? <==> !parsed.JObj? && !parsed.JArr?
    ensures parsed.JArr? ==> r == Parsed(parsed)
    ensures parsed.JObj? ==> r.Parsed? && r.data.JObj?
    ensures parsed.JObj? ==>
      var before := parsed.fields;
      var after := r.data.fields;
      && after.Keys == before.Keys + set k | k in RequiredKeys
      && (forall k :: k in before && k != "totalAmount" ==> k in after && after[k] == before[k])
      && (forall k :: k in after && k !in before ==> after[k] == JNull)
      && "totalAmount" in after
      && ("totalAmount" in before && before["totalAmount"].JStr? && before["totalAmount"].s != "" ==>
            after["totalAmount"] == match parseFloat(DigitsAndDotsOf(before["totalAmount"].s))
                                   case None => JNull
                                   case Some(n) => JNum(n))
      && ("totalAmount" in before && !(before["totalAmount"].JStr? && before["totalAmount"].s != "") ==>
            after["totalAmount"] == before["totalAmount"])
  {
    match parsed
    case JObj(fields) =>
      var data := WithTotal(fields, parseFloat);
      data := FillRequiredKeys(data);
      r := Parsed(JObj(data));
    case JArr(_) =>
      r := Parsed(parsed);
    case _ =>
      r := ParseServerError;
  }

  // ---------------------------------------------------------- manual create

  /** The responses of `POST /`. */
  datatype CreateResult = InvoiceCreated(id: Id) | MissingFields | AmountNotNumeric | InvoiceValidationError

  /**
   * `Number(amount)`, given the conversion of strings (`None` for NaN).
   * Objects and arrays are taken to be NaN.
   */
  function ToNumber(j: Json, toNumber: string -> Option<real>): (r: Option<real>)
    ensures r.None? <==> j.JArr? || j.JObj? || (j.JStr? && toNumber(j.s).None?)
    ensures j.JNull? || j.JBool? ==> r == Some(if j == JBool(true) then 1.0 else 0.0)
    ensures j.JNum? ==> r == Some(j.n)
  {
    match j
    case JNull => Some(0.0)
    case JBool(b) => Some(if b then 1.0 else 0.0)
    case JNum(n) => Some(n)
    case JStr(s) => toNumber(s)
    case _ => None
  }

  /** What the route decides before the store is touched: the document to save, or the rejection. */
  datatype Checked = Accept(invoice: Invoice) | Reject(response: CreateResult)

  /**
   * The checks and defaults of `POST /`: client name and description must be
   * truthy and the amount present and numeric; the email defaults to `''`
   * and the status to pending; then the schema's checks run, and the empty
   * email fails `required`.
   */
  function CheckManualInvoice(user: Id, clientName: Option<string>, clientEmail: Option<string>,
                              description: Option<string>, amount: Option<Json>, status: Option<string>,
                              now: Date, toNumber: string -> Option<real>): (r: Checked)
    ensures r == Reject(MissingFields) <==>
      !Given(clientName) || !Given(description) || amount.None? || amount.value.JNull?
    ensures r == Reject(AmountNotNumeric) <==>
      Given(clientName) && Given(description) && amount.Some? && !amount.value.JNull?
      && ToNumber(amount.value, toNumber).None?
    ensures r == Reject(InvoiceValidationError) <==>
      Given(clientName) && Given(description) && amount.Some? && !amount.value.JNull?
      && ToNumber(amount.value, toNumber).Some? && !Given(clientEmail)
    ensures r.Accept? <==>
      Given(clientName) && Given(description) && amount.Some? && !amount.value.JNull?
      && ToNumber(amount.value, toNumber).Some? && Given(clientEmail)
    ensures r.Reject? ==> !r.response.InvoiceCreated?
    ensures r.Accept? ==>
      && InvoiceValid(r.invoice)
      && r.invoice.user == user && r.invoice.createdAt == now
      && r.invoice.clientName == clientName.value && r.invoice.clientEmail == clientEmail.value
      && r.invoice.description == description.value
      && Some(r.invoice.amount) == ToNumber(amount.value, toNumber)
      && r.invoice.status == (if Given(status) then status.value else Pending)
  {
    if !Given(clientName) || !Given(description) || amount.None? || amount.value.JNull? then Reject(MissingFields)
    else
      match ToNumber(amount.value, toNumber)
      case None => Reject(AmountNotNumeric)
      case Some(n) =>
        var email := if Given(clientEmail) then clientEmail.value else "";
        var inv := NewInvoice(user, clientName.value, email, description.value, n,
                              if Given(status) then status else None, now);
        if InvoiceValid(inv) then Accept(inv) else Reject(InvoiceValidationError)
  }

  /** The `''` default for a missing email never yields an invoice: the schema refuses it. */
  lemma ManualInvoiceNeedsEmail(user: Id, clientName: Option<string>, description: Option<string>,
                                amount: Option<Json>, status: Option<string>,
                                now: Date, toNumber: string -> Option<real>)
    ensures CheckManualInvoice(user, clientName, None, description, amount, status, now, toNumber).Reject?
    ensures CheckManualInvoice(user, clientName, Some(""), description, amount, status, now, toNumber).Reject?
  {
  }

  /** `POST /`: saves the checked invoice under a fresh id, or changes nothing. */
  method CreateInvoice(db: Db.Store, user: Id, clientName: Option<string>, clientEmail: Option<string>,
                       description: Option<string>, amount: Option<Json>, status: Option<string>,
                       now: Date, toNumber: string -> Option<real>) returns (result: CreateResult)
    requires db.Valid()
    modifies db`invoices, db`nextId
    ensures db.Valid()
    ensures match CheckManualInvoice(user, clientName, clientEmail, description, amount, status, now, toNumber)
      case Accept(inv) =>
        result == InvoiceCreated(old(db.nextId)) && old(db.nextId) !in old(db.invoices)
        && db.invoices == old(db.invoices)[old(db.nextId) := inv] && db.nextId == old(db.nextId) + 1
      case Reject(response) =>
        result == response && db.invoices == old(db.invoices) && db.nextId == old(db.nextId)
  {
    var checked := CheckManualInvoice(user, clientName, clientEmail, description, amount, status, now, toNumber);
    match checked
    case Reject(response) =>
      result := response;
    case Accept(inv) =>
      var id := db.NewId();
      db.invoices := db.invoices[id := inv];
      result := InvoiceCreated(id);
  }

  // ------------------------------------------------- list, mark paid, delete

  function CreatedAt(p: (Id, Invoice)): DateTime {
    p.1.createdAt
  }

  /** `find({ user }).sort({ createdAt: -1 })`: the caller's invoices, newest first. */
  function ListInvoices(invoices: map<Id, Invoice>, nextId: Id, user: Id): (r: seq<(Id, Invoice)>)
    ensures SortedBy(r, CreatedAt, true)
    ensures forall p :: p in r <==> p.0 < nextId && p.0 in invoices && p.1 == invoices[p.0] && p.1.user == user
    ensures Db.KeysBelow(invoices, nextId) ==>
      forall id :: id in invoices && invoices[id].user == user ==> (id, invoices[id]) in r
  {
    var docs := Db.Select(invoices, (i: Invoice) => i.user == user, nextId);
    var r := SortBy(docs, CreatedAt, true);
    forall p ensures p in r <==> p in docs {
      SortByKeepsElements(docs, CreatedAt, true, p);
    }
    r
  }

  /** The listing shows each of the caller's invoices once. */
  lemma ListInvoicesDistinct(invoices: map<Id, Invoice>, nextId: Id, user: Id)
    ensures FirstsDistinct(ListInvoices(invoices, nextId, user))
  {
    var docs := Db.Select(invoices, (i: Invoice) => i.user == user, nextId);
    var r := ListInvoices(invoices, nextId, user);
    assert r == SortBy(docs, CreatedAt, true);
    PermutationKeepsFirstsDistinct(docs, r);
  }

  /**
   * `PATCH /:id`: marks the caller's invoice paid and returns it; any other
   * id, or another user's invoice, gives 404 and changes nothing.
   */
  method MarkPaid(db: Db.Store, id: Id, user: Id) returns (updated: Option<Invoice>)
    requires db.Valid()
    modifies db`invoices
    ensures db.Valid()
    ensures Db.OwnsInvoice(old(db.invoices), id, user) ==>
      db.invoices == Db.SetPaid(old(db.invoices), id) && updated == Some(old(db.invoices)[id].(status := Paid))
    ensures !Db.OwnsInvoice(old(db.invoices), id, user) ==> db.invoices == old(db.invoices) && updated.None?
  {
    if id in db.invoices && db.invoices[id].user == user {
      db.invoices := Db.SetPaid(db.invoices, id);
      updated := Some(db.invoices[id]);
    } else {
      updated := None;
    }
  }

  /** `DELETE /:id`: removes the caller's invoice; any other id gives 404 and changes nothing. */
  method DeleteInvoice(db: Db.Store, id: Id, user: Id) returns (deleted: bool)
    requires db.Valid()
    modifies db`invoices
    ensures db.Valid()
    ensures deleted <==> Db.OwnsInvoice(old(db.invoices), id, user)
    ensures deleted ==> db.invoices == old(db.invoices) - {id}
    ensures !deleted ==> db.invoices == old(db.invoices)
  {
    deleted := id in db.invoices && db.invoices[id].user == user;
    if deleted {
      db.invoices := db.invoices - {id};
    }
  }
}
