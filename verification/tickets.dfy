/** The ticket service: creating, changing and removing passes, the
    admission decision at the door, and the two-week expiry reminder. */
module Tickets {
  import opened Common
  import opened Config
  import opened Users
  import opened Store
  import opened Ledger
  import opened Occupancy

  const TicketNotFound := ApiError(NotFound, "Ticket not found")

  /** A validated creation body; absent dates are `None`. */
  datatype TicketBody = TicketBody(userId: Id, ttype: TicketType, startDate: Option<Time>,
                                   endDate: Option<Time>, img: string)

  /** `createTicket`: an unknown owner is refused; otherwise the pass starts
      `now` unless told otherwise and runs one year from its start unless
      told otherwise. The ticket schema requires a photo, so an empty one
      fails on save and nothing is stored. */
  function CreateTicket(st: State, b: TicketBody, now: Time, cal: Calendar, newId: Id): (r: Result<(State, Ticket)>)
    requires newId !in st.tickets
    ensures b.userId !in st.users <==> r == Err(UserDoesntExist)
    ensures b.userId in st.users && b.img == "" <==> r == Err(SchemaViolation)
    ensures r.Ok? <==> b.userId in st.users && b.img != ""
    ensures r.Ok? ==> var t := r.value.1;
      && t.id == newId && t.userId == b.userId && t.ttype == b.ttype && t.img == b.img
      && (b.startDate.Some? ==> t.startDate == b.startDate.value)
      && (b.startDate.None? ==> t.startDate == now)
      && (b.endDate.Some? ==> t.endDate == b.endDate.value)
      && (b.endDate.None? ==> t.endDate == cal.yearLater(t.startDate))
    // exactly one ticket is added and nothing else changes
    ensures r.Ok? ==> r.value.0 == st.(tickets := st.tickets[newId := r.value.1])
  {
    if b.userId !in st.users then Err(UserDoesntExist)
    else if b.img == "" then Err(SchemaViolation)
    else
      var start := if b.startDate.None? then now else b.startDate.value;
      var end := if b.endDate.None? then cal.yearLater(start) else b.endDate.value;
      var t := Ticket(newId, b.userId, b.ttype, start, end, b.img);
      Ok((st.(tickets := st.tickets[newId := t]), t))
  }

  /** The fields a validated update body may carry. */
  datatype TicketUpdate = TicketUpdate(startDate: Option<Time>, endDate: Option<Time>, img: Option<string>)

  /** `updateTicketById`: overwrites the given fields of an existing ticket.
      Saving validates the required photo, so a ticket that would be left
      without one is refused and nothing changes. */
  function UpdateTicketById(st: State, ticketId: Id, b: TicketUpdate): (r: Result<State>)
    ensures ticketId !in st.tickets <==> r == Err(TicketNotFound)
    ensures ticketId in st.tickets && b.img.GetOr(st.tickets[ticketId].img) == "" <==> r == Err(SchemaViolation)
    ensures r.Ok? <==> ticketId in st.tickets && b.img.GetOr(st.tickets[ticketId].img) != ""
    ensures r.Ok? ==> r.value == st.(tickets := r.value.tickets)
    ensures r.Ok? ==> r.value.tickets.Keys == st.tickets.Keys
    ensures r.Ok? ==> forall id :: id in st.tickets && id != ticketId ==> r.value.tickets[id] == st.tickets[id]
    ensures r.Ok? ==> var old_ := st.tickets[ticketId]; var t := r.value.tickets[ticketId];
      && t.id == old_.id && t.userId == old_.userId && t.ttype == old_.ttype
      && t.startDate == b.startDate.GetOr(old_.startDate)
      && t.endDate == b.endDate.GetOr(old_.endDate)
      && t.img == b.img.GetOr(old_.img)
  {
    if ticketId !in st.tickets then Err(TicketNotFound)
    else
      var t := st.tickets[ticketId];
      var t' := Ticket(t.id, t.userId, t.ttype,
                       if b.startDate.Some? then b.startDate.value else t.startDate,
                       if b.endDate.Some? then b.endDate.value else t.endDate,
                       if b.img.Some? then b.img.value else t.img);
      if t'.img == "" then Err(SchemaViolation)
      else Ok(st.(tickets := st.tickets[ticketId := t']))
  }

  /** `deleteTicketById`: removes an existing ticket and nothing else. */
  function DeleteTicketById(st: State, ticketId: Id): (r: Result<(State, Ticket)>)
    ensures ticketId !in st.tickets <==> r == Err(TicketNotFound)
    ensures r.Ok? ==> r.value.1 == st.tickets[ticketId]
    ensures r.Ok? ==> r.value.0 == st.(tickets := r.value.0.tickets)
    ensures r.Ok? ==> r.value.0.tickets.Keys == st.tickets.Keys - {ticketId}
    ensures r.Ok? ==> forall id :: id in r.value.0.tickets ==> r.value.0.tickets[id] == st.tickets[id]
  {
    if ticketId !in st.tickets then Err(TicketNotFound)
    else Ok((st.(tickets := st.tickets - {ticketId}), st.tickets[ticketId]))
  }

  /** `getTicketsForUser`: the ids of the user's tickets. */
  function GetTicketsForUser(st: State, userId: Id): (r: Result<set<Id>>)
    ensures userId !in st.users <==> r == Err(UserDoesntExistNotFound)
    ensures r.Ok? ==> forall id :: id in r.value <==> id in st.tickets && st.tickets[id].userId == userId
  {
    if userId !in st.users then Err(UserDoesntExistNotFound)
    else Ok(set id | id in st.tickets && st.tickets[id].userId == userId)
  }

  /** The answers of the admission check, in the order the checks run. */
  datatype Outcome =
    | InvalidQr                // no such ticket
    | UsedOn(date: string)     // a one-time ticket past its end
    | ExpiredOn(date: string)  // a year ticket past its end
    | OwnerNotFound
    | AlreadyCheckedIn
    | SomethingWrong           // the ledger handed back no record
    | CheckedIn

  /** The literal message shown at the door. */
  function Message(o: Outcome): string {
    match o
    case InvalidQr => "Mislukt - Ongeldige QR code"
    case UsedOn(d) => "Mislukt - Ticket is al gebruikt op " + d
    case ExpiredOn(d) => "Mislukt - Ticket is verlopen op " + d
    case OwnerNotFound => "Mislukt - Gebruiker niet gevonden"
    case AlreadyCheckedIn => "Mislukt - Gebruiker is al ingecheckt"
    case SomethingWrong => "Er is iets misgegaan, probeer opnieuw"
    case CheckedIn => "Inchecken gelukt"
  }

  /** Every refusal, and only a refusal, starts with "Mislukt"; a used or
      expired ticket's message ends with the date it gives. */
  lemma MessageMarksRefusals(o: Outcome)
    ensures |Message(o)| > 10
    ensures Message(o)[..7] == "Mislukt" <==> !(o.SomethingWrong? || o.CheckedIn?)
    ensures Message(o)[10] == 'T' <==> (o.UsedOn? || o.ExpiredOn?)
    ensures (o.UsedOn? || o.ExpiredOn?) ==> |Message(o)| >= |o.date| && Message(o)[|Message(o)| - |o.date|..] == o.date
  {
    var m := Message(o);
    match o
    case InvalidQr => assert m[..7] == "Mislukt" && m[10] == 'O';
    case UsedOn(d) =>
      assert m == "Mislukt - Ticket is al gebruikt op " + d;
      assert m[..7] == "Mislukt" && m[10] == 'T';
      assert m[|m| - |d|..] == d;
    case ExpiredOn(d) =>
      assert m == "Mislukt - Ticket is verlopen op " + d;
      assert m[..7] == "Mislukt" && m[10] == 'T';
      assert m[|m| - |d|..] == d;
    case OwnerNotFound => assert m[..7] == "Mislukt" && m[10] == 'G';
    case AlreadyCheckedIn => assert m[..7] == "Mislukt" && m[10] == 'G';
    case SomethingWrong => assert m[0] == 'E' && m[10] == ' ';
    case CheckedIn => assert m[0] == 'I' && m[10] == 'g';
  }

  /** Different outcomes give different messages, so the message shown at
      the door tells which check decided. */
  lemma MessagesDistinct(o1: Outcome, o2: Outcome)
    ensures Message(o1) == Message(o2) <==> o1 == o2
  {
    if Message(o1) == Message(o2) {
      var m := Message(o1);
      MessageMarksRefusals(o1);
      MessageMarksRefusals(o2);
      if o1.UsedOn? || o1.ExpiredOn? {
        assert o2.UsedOn? || o2.ExpiredOn?;
        assert m[20] == (if o1.UsedOn? then 'a' else 'v');
        assert m[20] == (if o2.UsedOn? then 'a' else 'v');
        assert |o1.date| == |o2.date|;
      } else {
        assert !(o2.UsedOn? || o2.ExpiredOn?);
        assert |m| == (match o1
                       case InvalidQr => 27 case OwnerNotFound => 33 case AlreadyCheckedIn => 36
                       case SomethingWrong => 37 case _ => 16);
      }
    }
  }

  /** `isBefore(ticket.endDate, now)`: a ticket ending exactly now is still valid. */
  predicate Expired(t: Ticket, now: Time) {
    t.endDate < now
  }

  /** Every check passes: the ticket exists and has not ended, its owner
      exists and is not inside. */
  predicate Admissible(st: State, ticketId: Id, now: Time) {
    && ticketId in st.tickets
    && !Expired(st.tickets[ticketId], now)
    && st.tickets[ticketId].userId in st.users
    && !st.users[st.tickets[ticketId].userId].isCheckedIn
  }

  /** `verifyTicket`: the admission decision and, on success, the check-in. */
  function VerifyTicket(st: State, ticketId: Id, now: Time, cal: Calendar, newId: Id): (r: (State, Outcome))
    requires FreshCheckInId(st, newId)
    ensures ticketId !in st.tickets ==> r == (st, InvalidQr)
    ensures ticketId in st.tickets && Expired(st.tickets[ticketId], now) ==>
      var t := st.tickets[ticketId];
      r == (st, if t.ttype == OneTime then UsedOn(cal.format(t.endDate)) else ExpiredOn(cal.format(t.endDate)))
    ensures ticketId in st.tickets && !Expired(st.tickets[ticketId], now) && st.tickets[ticketId].userId !in st.users ==>
      r == (st, OwnerNotFound)
    ensures ticketId in st.tickets && !Expired(st.tickets[ticketId], now) && st.tickets[ticketId].userId in st.users
            && st.users[st.tickets[ticketId].userId].isCheckedIn ==>
      r == (st, AlreadyCheckedIn)
    // a refusal changes nothing; success happens exactly when every check passes
    ensures r.1 != CheckedIn ==> r.0 == st
    ensures r.1 == CheckedIn <==> Admissible(st, ticketId, now)
    ensures r.1 == CheckedIn ==> r.0 == CheckInUser(st, ticketId, now, newId).0
  {
    if ticketId !in st.tickets then (st, InvalidQr)
    else
      var t := st.tickets[ticketId];
      if Expired(t, now) then
        var formatted := cal.format(t.endDate);
        if t.ttype == OneTime then (st, UsedOn(formatted)) else (st, ExpiredOn(formatted))
      else if t.userId !in st.users then (st, OwnerNotFound)
      else if st.users[t.userId].isCheckedIn then (st, AlreadyCheckedIn)
      else
        var (st', checkIn) := CheckInUser(st, ticketId, now, newId);
        if checkIn.None? then (st, SomethingWrong) else (st', CheckedIn)
  }

  /** The ledger always hands back a record for an existing owner, so the
      "something went wrong" answer cannot occur. */
  lemma NeverSomethingWrong(st: State, ticketId: Id, now: Time, cal: Calendar, newId: Id)
    requires FreshCheckInId(st, newId)
    ensures VerifyTicket(st, ticketId, now, cal, newId).1 != SomethingWrong
  {
  }

  /** A successful admission adds the owner to the checked-in users, so the
      live count rises by exactly one. */
  lemma AdmissionRaisesCount(st: State, ticketId: Id, now: Time, cal: Calendar, newId: Id)
    requires FreshCheckInId(st, newId)
    requires Admissible(st, ticketId, now)
    ensures var st' := VerifyTicket(st, ticketId, now, cal, newId).0;
            CheckedInIds(st'.users) == CheckedInIds(st.users) + {st.tickets[ticketId].userId}
            && Total(st') == Total(st) + 1
  {
    var owner := st.tickets[ticketId].userId;
    var st' := VerifyTicket(st, ticketId, now, cal, newId).0;
    assert CheckedInIds(st'.users) == CheckedInIds(st.users) + {owner};
    assert owner !in CheckedInIds(st.users);
  }

  /** A one-time ticket admitted at `t` is refused at any later moment with
      the "already used" message dated `t`. */
  lemma OneTimeTicketUsedOnce(st: State, ticketId: Id, t: Time, later: Time, cal: Calendar, id1: Id, id2: Id)
    requires FreshCheckInId(st, id1)
    requires Admissible(st, ticketId, t) && st.tickets[ticketId].ttype == OneTime
    requires later > t
    requires FreshCheckInId(VerifyTicket(st, ticketId, t, cal, id1).0, id2)
    ensures var st1 := VerifyTicket(st, ticketId, t, cal, id1).0;
            VerifyTicket(st1, ticketId, later, cal, id2) == (st1, UsedOn(cal.format(t)))
  {
    var st1 := VerifyTicket(st, ticketId, t, cal, id1).0;
    assert st1.tickets[ticketId].endDate == t;
  }

  /** A year ticket admitted once is refused while its owner is still inside. */
  lemma YearTicketOwnerInside(st: State, ticketId: Id, t: Time, later: Time, cal: Calendar, id1: Id, id2: Id)
    requires FreshCheckInId(st, id1)
    requires Admissible(st, ticketId, t) && st.tickets[ticketId].ttype == Year
    requires t <= later <= st.tickets[ticketId].endDate
    requires FreshCheckInId(VerifyTicket(st, ticketId, t, cal, id1).0, id2)
    ensures var st1 := VerifyTicket(st, ticketId, t, cal, id1).0;
            VerifyTicket(st1, ticketId, later, cal, id2) == (st1, AlreadyCheckedIn)
  {
  }

  /** The ticket's end falls on the calendar day two weeks from `now`
      (`startOfDay <= endDate <= endOfDay`). */
  predicate DueForReminder(t: Ticket, now: Time, cal: Calendar) {
    cal.dayOf(t.endDate) == cal.dayOf(cal.twoWeeksLater(now))
  }

  function DueIds(tickets: map<Id, Ticket>, now: Time, cal: Calendar): set<Id> {
    set id | id in tickets && DueForReminder(tickets[id], now, cal)
  }

  /** One reminder per id, in the order given. */
  function RemindersFor(tickets: map<Id, Ticket>, ids: seq<Id>): (r: seq<Notice>)
    requires forall i :: 0 <= i < |ids| ==> ids[i] in tickets
    ensures |r| == |ids|
    ensures forall i :: 0 <= i < |ids| ==> r[i] == ExpiryReminder(tickets[ids[i]])
  {
    if |ids| == 0 then [] else RemindersFor(tickets, ids[..|ids| - 1]) + [ExpiryReminder(tickets[ids[|ids| - 1]])]
  }

  /** `twoWeekExpirationNotification`: queues one reminder for every ticket
      due two weeks from `now` and for no other; `reminded` lists the
      tickets in the order their reminders were queued. */
  method TwoWeekReminders(st: State, now: Time, cal: Calendar) returns (r: State, reminded: seq<Id>)
    ensures forall i :: 0 <= i < |reminded| ==> reminded[i] in st.tickets
    ensures forall i, j :: 0 <= i < j < |reminded| ==> reminded[i] != reminded[j]
    ensures forall id :: id in reminded <==> id in DueIds(st.tickets, now, cal)
    ensures r == st.(outbox := st.outbox + RemindersFor(st.tickets, reminded))
  {
    var remaining := st.tickets.Keys;
    reminded := [];
    while remaining != {}
      invariant remaining <= st.tickets.Keys
      invariant forall i :: 0 <= i < |reminded| ==> reminded[i] in st.tickets && reminded[i] !in remaining
      invariant forall i, j :: 0 <= i < j < |reminded| ==> reminded[i] != reminded[j]
      invariant forall id :: id in reminded <==> id in DueIds(st.tickets, now, cal) && id !in remaining
      decreases remaining
    {
      var id :| id in remaining;
      if DueForReminder(st.tickets[id], now, cal) {
        reminded := reminded + [id];
      }
      remaining := remaining - {id};
    }
    r := st.(outbox := st.outbox + RemindersFor(st.tickets, reminded));
  }
}
