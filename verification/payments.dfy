/** Payment reconciliation with the card gateway: starting a payment,
    settling it when the shopper comes back from their bank, and the result
    page the shopper is sent to. The gateway's answers are inputs. In a
    stored record an absent or empty field is the empty string, since the
    redirect handler tests both the same way; the record's schema, which
    tells them apart, is applied where the record is created. */
module Payments {
  import opened Common
  import opened Config
  import opened Store
  import opened Ledger
  import opened Tickets

  /** A validated `makePayment` body. */
  datatype PaymentBody = PaymentBody(paymentMethod: string, userId: Id, ticketType: TicketType, img: string)

  /** What is sent to the gateway to start a payment. */
  datatype PaymentRequest = PaymentRequest(paymentMethod: string, amount: Amount, reference: Id, returnUrl: string)

  /** The gateway's answer to a payment request: `action` is present when the
      shopper has to act (for instance at their bank's website), and may or
      may not carry `paymentData`. */
  datatype Action = Action(paymentData: Option<string>)
  datatype PaymentResponse = PaymentResponse(action: Option<Action>, resultCode: string)

  const ReturnUrlBase := "http://localhost:5000/api/payments/handleShopperRedirect?orderRef="

  /** The request `makePayment` sends for a body under the order reference
      it generated. */
  function PaymentRequestFor(b: PaymentBody, orderRef: Id): (q: PaymentRequest)
    ensures q.amount == TicketPrices[TicketTypeName(b.ticketType)]
    ensures q.amount == Price(b.ticketType)
    ensures q.reference == orderRef && q.paymentMethod == b.paymentMethod
    ensures |q.returnUrl| >= |ReturnUrlBase| && q.returnUrl[|ReturnUrlBase|..] == orderRef
  {
    PriceTableTotal(b.ticketType);
    PaymentRequest(b.paymentMethod, TicketPrices[TicketTypeName(b.ticketType)], orderRef, ReturnUrlBase + orderRef)
  }

  /** Whether the pending-payment schema accepts a record built from the
      body and the action: `paymentData` (of any type) must be present and
      `img` (a string) non-empty; owner and ticket type are already checked
      by the request schema. */
  predicate RecordAccepted(b: PaymentBody, a: Action) {
    a.paymentData.Some? && b.img != ""
  }

  /** `makePayment`, after the gateway answered `response`: a pending record
      is kept exactly when the shopper has an action to take and the record
      passes its schema; a record the schema refuses fails the call and
      stores nothing. The answer is passed back unchanged. */
  function MakePayment(st: State, b: PaymentBody, orderRef: Id, response: PaymentResponse)
    : (r: Result<(State, PaymentResponse)>)
    ensures r.Err? ==> r.error == SchemaViolation
    ensures r.Err? <==> response.action.Some? && (response.action.value.paymentData.None? || b.img == "")
    ensures r.Ok? ==> r.value.1 == response && r.value.0 == st.(payments := r.value.0.payments)
    ensures response.action.None? ==> r == Ok((st, response))
    ensures r.Ok? && response.action.Some? ==>
      r.value.0.payments == st.payments[orderRef := PendingPayment(orderRef, response.action.value.paymentData.value,
                                                                   b.userId, b.ticketType, b.img)]
    ensures r.Ok? ==> (orderRef in r.value.0.payments <==> orderRef in st.payments || response.action.Some?)
  {
    match response.action
    case None => Ok((st, response))
    case Some(a) =>
      if !RecordAccepted(b, a) then Err(SchemaViolation)
      else
        var rec := PendingPayment(orderRef, a.paymentData.value, b.userId, b.ticketType, b.img);
        Ok((st.(payments := st.payments[orderRef := rec]), response))
  }

  /** The fields of the shopper's redirect that may carry payment details. */
  datatype Redirect = Redirect(payload: string, redirectResult: string, md: string, paRes: string)

  datatype Details = Payload(payload: string) | RedirectResult(redirectResult: string) | ThreeDS(md: string, paRes: string)

  /** The details forwarded to the gateway: the first present of `payload`
      and `redirectResult`, else the `MD`/`PaRes` pair as they are. A GET
      redirect carries them in its query, a POST in its body. */
  function ExtractDetails(isGet: bool, query: Redirect, body: Redirect): (d: Details)
    ensures var red := if isGet then query else body;
      && (red.payload != "" <==> d.Payload?)
      && (d.Payload? ==> d.payload == red.payload)
      && (red.payload == "" && red.redirectResult != "" <==> d.RedirectResult?)
      && (d.RedirectResult? ==> d.redirectResult == red.redirectResult)
      && (d.ThreeDS? ==> d == ThreeDS(red.md, red.paRes))
  {
    var red := if isGet then query else body;
    if red.payload != "" then Payload(red.payload)
    else if red.redirectResult != "" then RedirectResult(red.redirectResult)
    else ThreeDS(red.md, red.paRes)
  }

  /** What is sent to the gateway to settle the payment. */
  datatype DetailsRequest = DetailsRequest(details: Details, paymentData: string)

  /** The gateway's verdict on the submitted details. */
  datatype PaymentResult = PaymentResult(resultCode: string, pspReference: string)

  const PaymentDetailsNotFound := ApiError(NotFound, "Payment details not found or incomplete")

  /** The exception raised by destructuring the missing record. */
  const CannotDestructure := ApiError(InternalError, "Cannot destructure property 'paymentData' of null")

  /** A stored record lacking one of the values settlement needs. */
  predicate Incomplete(rec: PendingPayment) {
    rec.paymentData == "" || rec.userId == "" || rec.img == ""
  }

  /** The settlement branch taken once the gateway has answered for a
      complete record: create the ticket, drop the record and confirm
      (`Authorised`); drop the record (`Cancelled`, `Refused`); or leave
      everything as it was. */
  function Settle(st: State, orderRef: Id, result: PaymentResult, now: Time, cal: Calendar, newTicketId: Id)
    : (r: Result<State>)
    requires orderRef in st.payments && newTicketId !in st.tickets
  {
    var rec := st.payments[orderRef];
    match result.resultCode
    case "Authorised" =>
      (match CreateTicket(st, TicketBody(rec.userId, rec.ticketType, None, None, rec.img), now, cal, newTicketId)
       case Err(e) => Err(e)
       case Ok((st1, _)) =>
         Ok(st1.(payments := st1.payments - {orderRef},
                 outbox := st1.outbox + [PurchaseConfirmation(rec.userId, rec.ticketType)])))
    case "Cancelled" => Ok(st.(payments := st.payments - {orderRef}))
    case "Refused" => Ok(st.(payments := st.payments - {orderRef}))
    case _ => Ok(st)
  }

  /** `handleShopperRedirect` as the source writes it: the looked-up record
      is destructured before it is checked, so a missing record raises an
      uncaught exception instead of the intended not-found error. On success
      the result carries the new state, the request sent to the gateway and
      the gateway's answer, passed on unchanged. */
  function HandleShopperRedirectAsWritten(st: State, orderRef: Id, isGet: bool, query: Redirect, body: Redirect,
                                          result: PaymentResult, now: Time, cal: Calendar, newTicketId: Id)
    : (r: Result<(State, DetailsRequest, PaymentResult)>)
    requires newTicketId !in st.tickets
    ensures orderRef !in st.payments <==> r == Err(CannotDestructure)
    ensures orderRef in st.payments ==>
      r == HandleShopperRedirect(st, orderRef, isGet, query, body, result, now, cal, newTicketId)
  {
    if orderRef !in st.payments then Err(CannotDestructure)
    else HandleShopperRedirect(st, orderRef, isGet, query, body, result, now, cal, newTicketId)
  }

  /** `handleShopperRedirect` with a missing record answered as the source
      evidently intends: not found, like an incomplete one. */
  function HandleShopperRedirect(st: State, orderRef: Id, isGet: bool, query: Redirect, body: Redirect,
                                 result: PaymentResult, now: Time, cal: Calendar, newTicketId: Id)
    : (r: Result<(State, DetailsRequest, PaymentResult)>)
    requires newTicketId !in st.tickets
    // no usable record: refused before the gateway is contacted
    ensures (orderRef !in st.payments || Incomplete(st.payments[orderRef])) <==> r == Err(PaymentDetailsNotFound)
    ensures r.Ok? ==> r.value.1 == DetailsRequest(ExtractDetails(isGet, query, body), st.payments[orderRef].paymentData)
    ensures r.Ok? ==> r.value.2 == result
    // the three settlement branches
    ensures r.Ok? && result.resultCode == "Authorised" ==>
      var rec := st.payments[orderRef];
      && rec.userId in st.users
      && r.value.0.tickets == st.tickets[newTicketId := Ticket(newTicketId, rec.userId, rec.ticketType, now, cal.yearLater(now), rec.img)]
      && r.value.0.payments == st.payments - {orderRef}
      && r.value.0.outbox == st.outbox + [PurchaseConfirmation(rec.userId, rec.ticketType)]
      && r.value.0 == st.(tickets := r.value.0.tickets, payments := r.value.0.payments, outbox := r.value.0.outbox)
    ensures r.Ok? && result.resultCode in {"Cancelled", "Refused"} ==>
      r.value.0 == st.(payments := st.payments - {orderRef})
    ensures r.Ok? && result.resultCode !in {"Authorised", "Cancelled", "Refused"} ==> r.value.0 == st
    // an owner deleted meanwhile makes ticket creation fail and keeps the record
    ensures (orderRef in st.payments && !Incomplete(st.payments[orderRef]) && result.resultCode == "Authorised"
             && st.payments[orderRef].userId !in st.users) <==> r == Err(UserDoesntExist)
  {
    if orderRef !in st.payments then Err(PaymentDetailsNotFound)
    else
      var rec := st.payments[orderRef];
      if Incomplete(rec) then Err(PaymentDetailsNotFound)
      else
        var request := DetailsRequest(ExtractDetails(isGet, query, body), rec.paymentData);
        match Settle(st, orderRef, result, now, cal, newTicketId)
        case Err(e) => Err(e)
        case Ok(st') => Ok((st', request, result))
  }

  /** The source's version and the intended one part ways exactly on a
      callback whose record is gone, the case a replayed callback hits. */
  lemma MissingRecordDiscrepancy(st: State, orderRef: Id, isGet: bool, query: Redirect, body: Redirect,
                                 result: PaymentResult, now: Time, cal: Calendar, newTicketId: Id)
    requires newTicketId !in st.tickets && orderRef !in st.payments
    ensures HandleShopperRedirectAsWritten(st, orderRef, isGet, query, body, result, now, cal, newTicketId).error.status
            == InternalError
    ensures HandleShopperRedirect(st, orderRef, isGet, query, body, result, now, cal, newTicketId).error.status
            == NotFound
  {
  }

  /** Settling an authorised payment deletes its record, so replaying the
      callback for the same order is refused and cannot create a second
      ticket or a second confirmation. */
  lemma {:induction false} ReplayCreatesNothing(st: State, orderRef: Id, isGet: bool, query: Redirect, body: Redirect,
                                                result: PaymentResult, now: Time, cal: Calendar, id1: Id,
                                                later: Time, result2: PaymentResult, id2: Id)
    requires id1 !in st.tickets
    requires result.resultCode == "Authorised"
    requires HandleShopperRedirect(st, orderRef, isGet, query, body, result, now, cal, id1).Ok?
    requires id2 !in HandleShopperRedirect(st, orderRef, isGet, query, body, result, now, cal, id1).value.0.tickets
    ensures var st1 := HandleShopperRedirect(st, orderRef, isGet, query, body, result, now, cal, id1).value.0;
            && |st1.tickets.Keys| == |st.tickets.Keys| + 1
            && HandleShopperRedirect(st1, orderRef, isGet, query, body, result2, later, cal, id2) == Err(PaymentDetailsNotFound)
            && HandleShopperRedirectAsWritten(st1, orderRef, isGet, query, body, result2, later, cal, id2).Err?
  {
    var st1 := HandleShopperRedirect(st, orderRef, isGet, query, body, result, now, cal, id1).value.0;
    assert st1.tickets.Keys == st.tickets.Keys + {id1};
    assert orderRef !in st1.payments;
  }

  /** The whole purchase: a payment whose record is stored, followed by an
      authorised callback for its order, adds exactly one ticket of the
      bought type for the buyer, confirms it, and drops the record. */
  lemma {:induction false} PaymentThenAuthorised(st: State, b: PaymentBody, orderRef: Id, pd: string,
                                                 isGet: bool, query: Redirect, body: Redirect,
                                                 result: PaymentResult, now: Time, cal: Calendar, newTicketId: Id)
    requires pd != "" && b.img != "" && b.userId != "" && b.userId in st.users
    requires newTicketId !in st.tickets && result.resultCode == "Authorised"
    ensures var made := MakePayment(st, b, orderRef, PaymentResponse(Some(Action(Some(pd))), "RedirectShopper"));
      && made.Ok?
      && var r := HandleShopperRedirect(made.value.0, orderRef, isGet, query, body, result, now, cal, newTicketId);
      && r.Ok?
      && r.value.0.tickets == st.tickets[newTicketId := Ticket(newTicketId, b.userId, b.ticketType, now, cal.yearLater(now), b.img)]
      && r.value.0.payments == st.payments - {orderRef}
      && r.value.0.outbox == st.outbox + [PurchaseConfirmation(b.userId, b.ticketType)]
  {
    var made := MakePayment(st, b, orderRef, PaymentResponse(Some(Action(Some(pd))), "RedirectShopper"));
    var st1 := made.value.0;
    assert st1.payments[orderRef] == PendingPayment(orderRef, pd, b.userId, b.ticketType, b.img);
    assert st1.users == st.users && st1.tickets == st.tickets && st1.outbox == st.outbox;
    assert st1.payments - {orderRef} == st.payments - {orderRef};
  }

  /** The result pages the shopper may land on. */
  datatype Page = SuccessPage | PendingPage | CancelledPage | FailedPage | ErrorPage

  function PageUrl(p: Page): string {
    match p
    case SuccessPage => "http://localhost:3000/PaymentResult/Success"
    case PendingPage => "http://localhost:3000/PaymentResult/Pending"
    case CancelledPage => "http://localhost:3000/PaymentResult/Cancelled"
    case FailedPage => "http://localhost:3000/PaymentResult/Failed"
    case ErrorPage => "http://localhost:3000/PaymentResult/Error"
  }

  /** The controller's redirect for a settled payment's result code. */
  function ResultPage(resultCode: string): (p: Page)
    ensures p == SuccessPage <==> resultCode == "Authorised"
    ensures p == PendingPage <==> resultCode in {"Pending", "Received"}
    ensures p == CancelledPage <==> resultCode == "Cancelled"
    ensures p == FailedPage <==> resultCode == "Refused"
    ensures p == ErrorPage <==> resultCode !in {"Authorised", "Pending", "Received", "Cancelled", "Refused"}
  {
    match resultCode
    case "Authorised" => SuccessPage
    case "Pending" => PendingPage
    case "Received" => PendingPage
    case "Cancelled" => CancelledPage
    case "Refused" => FailedPage
    case _ => ErrorPage
  }

  /** The five pages have five different addresses, so the redirect names
      exactly one of them. */
  lemma PageUrlsDistinct(p: Page, q: Page)
    ensures PageUrl(p) == PageUrl(q) <==> p == q
  {
  }
}
