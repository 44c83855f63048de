/** The server's persistent and process-wide state as one immutable record:
    the four collections, the occupancy adjustment and the venue status
    (module-level variables of the user service), and the e-mails sent so
    far, kept as events. */
module Store {
  import opened Common
  import opened Config
  import opened Users

  datatype Ticket = Ticket(id: Id, userId: Id, ttype: TicketType, startDate: Time, endDate: Time, img: string)

  /** One admission event. `inHistory` is cleared when the visitor hides it
      from their own history; the record itself is kept. */
  datatype CheckIn = CheckIn(id: Id, userId: Id, date: Time, inHistory: bool)

  /** A payment awaiting the shopper's action at the gateway, keyed by its
      order reference. */
  datatype PendingPayment = PendingPayment(orderRef: Id, paymentData: string, userId: Id,
                                           ticketType: TicketType, img: string)

  datatype VenueStatus = Open | Closed

  function StatusName(s: VenueStatus): string {
    match s
    case Open => "open"
    case Closed => "closed"
  }

  /** E-mails the services send, as events. */
  datatype Notice =
    | PurchaseConfirmation(userId: Id, ticketType: TicketType)
    | ExpiryReminder(ticket: Ticket)

  datatype State = State(
    users: Users,
    tickets: map<Id, Ticket>,
    checkIns: seq<CheckIn>,
    payments: map<Id, PendingPayment>,
    adjustment: int,
    status: VenueStatus,
    outbox: seq<Notice>)

  /** The state a freshly started server process sees for an empty store. */
  const Initial := State(map[], map[], [], map[], 0, Closed, [])

  /** `id` is not used by any stored check-in. */
  predicate FreshCheckInId(st: State, id: Id) {
    forall c :: c in st.checkIns ==> c.id != id
  }
}
