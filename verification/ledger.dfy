/** The check-in service: recording admissions, a visitor's own history,
    hiding that history, and deleting a visitor's records. */
module Ledger {
  import opened Common
  import opened Config
  import opened Users
  import opened Store
  import opened Sorting

  const UserDoesntExist := ApiError(BadRequest, "User doesnt exist")
  const UserDoesntExistNotFound := ApiError(NotFound, "User doesnt exist")

  /** `addCheckIn`: appends one visible record for an existing user, dated
      `date` or, when none is given, `now`. */
  function AddCheckIn(st: State, userId: Id, date: Option<Time>, now: Time, newId: Id): (r: Result<(State, CheckIn)>)
    requires FreshCheckInId(st, newId)
    ensures userId !in st.users <==> r == Err(UserDoesntExist)
    ensures r.Ok? ==> r.value.1 == CheckIn(newId, userId, date.GetOr(now), true)
    ensures r.Ok? ==> r.value.0 == st.(checkIns := st.checkIns + [r.value.1])
  {
    if userId !in st.users then Err(UserDoesntExist)
    else
      var c := CheckIn(newId, userId, if date.Some? then date.value else now, true);
      Ok((st.(checkIns := st.checkIns + [c]), c))
  }

  /** `checkInUser`: flags the ticket's owner as checked in, closes a
      one-time ticket at `now`, and records the check-in. The record comes
      back as `None` when the store hands back no document. */
  function CheckInUser(st: State, ticketId: Id, now: Time, newId: Id): (r: (State, Option<CheckIn>))
    requires ticketId in st.tickets && st.tickets[ticketId].userId in st.users
    requires FreshCheckInId(st, newId)
    ensures var t := st.tickets[ticketId];
            && r.0.users == SetCheckedIn(st.users, t.userId, true)
            && r.0.tickets == (if t.ttype == OneTime then st.tickets[ticketId := t.(endDate := now)] else st.tickets)
            && r.0.checkIns == st.checkIns + [CheckIn(newId, t.userId, now, true)]
            && r.1 == Some(CheckIn(newId, t.userId, now, true))
    ensures r.0 == st.(users := r.0.users, tickets := r.0.tickets, checkIns := r.0.checkIns)
  {
    var t := st.tickets[ticketId];
    var st1 := st.(users := SetCheckedIn(st.users, t.userId, true));
    var st2 := if t.ttype == OneTime then st1.(tickets := st1.tickets[ticketId := t.(endDate := now)]) else st1;
    match AddCheckIn(st2, t.userId, None, now, newId)
    case Ok((st3, c)) => (st3, Some(c))
    case Err(_) => (st2, None)
  }

  /** One element of a visitor's history: the record's id and date. */
  datatype HistoryEntry = HistoryEntry(id: Id, date: Time)

  predicate Visible(userId: Id, c: CheckIn) {
    c.userId == userId && c.inHistory
  }

  /** The records of `userId` still shown in their history, in stored order. */
  function VisibleOf(cs: seq<CheckIn>, userId: Id): (r: seq<CheckIn>)
    ensures forall c :: c in r <==> c in cs && Visible(userId, c)
  {
    if |cs| == 0 then []
    else VisibleOf(cs[..|cs| - 1], userId) + (if Visible(userId, cs[|cs| - 1]) then [cs[|cs| - 1]] else [])
  }

  /** The records not belonging to `userId`, in stored order. */
  function WithoutUser(cs: seq<CheckIn>, userId: Id): (r: seq<CheckIn>)
    ensures forall c :: c in r <==> c in cs && c.userId != userId
  {
    if |cs| == 0 then []
    else WithoutUser(cs[..|cs| - 1], userId) + (if cs[|cs| - 1].userId != userId then [cs[|cs| - 1]] else [])
  }

  function Entry(c: CheckIn): HistoryEntry {
    HistoryEntry(c.id, c.date)
  }

  function Entries(cs: seq<CheckIn>): (r: seq<HistoryEntry>)
    ensures |r| == |cs|
    ensures forall i :: 0 <= i < |cs| ==> r[i] == Entry(cs[i])
  {
    if |cs| == 0 then [] else Entries(cs[..|cs| - 1]) + [Entry(cs[|cs| - 1])]
  }

  function NewestFirst(e: HistoryEntry): int { -e.date }

  /** `getHistory`: the visitor's visible records, newest first. */
  function GetHistory(st: State, userId: Id): (r: Result<seq<HistoryEntry>>)
    ensures userId !in st.users <==> r == Err(UserDoesntExistNotFound)
    ensures r.Ok? ==> multiset(r.value) == multiset(Entries(VisibleOf(st.checkIns, userId)))
    ensures r.Ok? ==> forall i, j :: 0 <= i < j < |r.value| ==> r.value[i].date >= r.value[j].date
  {
    if userId !in st.users then Err(UserDoesntExistNotFound)
    else
      var entries := Entries(VisibleOf(st.checkIns, userId));
      var sorted := SortBy(entries, NewestFirst);
      assert forall i, j :: 0 <= i < j < |sorted| ==> NewestFirst(sorted[i]) <= NewestFirst(sorted[j]);
      Ok(sorted)
  }

  /** Every record of `userId` hidden, every other record as it was. */
  function Hide(cs: seq<CheckIn>, userId: Id): (r: seq<CheckIn>)
    ensures |r| == |cs|
    ensures forall i :: 0 <= i < |cs| ==>
      r[i] == if cs[i].userId == userId then cs[i].(inHistory := false) else cs[i]
  {
    if |cs| == 0 then [] else Hide(cs[..|cs| - 1], userId) + [
      var c := cs[|cs| - 1]; if c.userId == userId then c.(inHistory := false) else c]
  }

  /** `clearHistory`: hides all of the visitor's records without deleting
      any; other visitors' records are untouched. */
  function ClearHistory(st: State, userId: Id): (r: Result<State>)
    ensures userId !in st.users <==> r == Err(UserDoesntExistNotFound)
    ensures r.Ok? ==> r.value == st.(checkIns := r.value.checkIns)
    ensures r.Ok? ==> |r.value.checkIns| == |st.checkIns|
    ensures r.Ok? ==> forall i :: 0 <= i < |st.checkIns| ==>
      var c := st.checkIns[i];
      && r.value.checkIns[i].(inHistory := c.inHistory) == c
      && r.value.checkIns[i].inHistory == (c.inHistory && c.userId != userId)
  {
    if userId !in st.users then Err(UserDoesntExistNotFound)
    else Ok(st.(checkIns := Hide(st.checkIns, userId)))
  }

  /** `deleteAllCheckInsForUser`: removes exactly the visitor's records and
      keeps the others in order. */
  function DeleteAllCheckInsForUser(st: State, userId: Id): (r: Result<State>)
    ensures userId !in st.users <==> r == Err(UserDoesntExistNotFound)
    ensures r.Ok? ==> r.value == st.(checkIns := r.value.checkIns)
    ensures r.Ok? ==> forall c :: c in r.value.checkIns <==> c in st.checkIns && c.userId != userId
    ensures r.Ok? ==> r.value.checkIns == WithoutUser(st.checkIns, userId)
  {
    if userId !in st.users then Err(UserDoesntExistNotFound)
    else Ok(st.(checkIns := WithoutUser(st.checkIns, userId)))
  }

  /** After clearing, the visitor's history is empty. */
  lemma {:induction false} HistoryEmptyAfterClear(st: State, userId: Id)
    requires userId in st.users
    ensures GetHistory(ClearHistory(st, userId).value, userId) == Ok([])
  {
    var cs := ClearHistory(st, userId).value.checkIns;
    NothingVisibleAfterHide(st.checkIns, userId);
    assert VisibleOf(cs, userId) == [];
  }

  lemma {:induction false} NothingVisibleAfterHide(cs: seq<CheckIn>, userId: Id)
    ensures VisibleOf(Hide(cs, userId), userId) == []
  {
    if |cs| > 0 {
      var h := Hide(cs, userId);
      assert h[..|h| - 1] == Hide(cs[..|cs| - 1], userId);
      NothingVisibleAfterHide(cs[..|cs| - 1], userId);
    }
  }

  /** Clearing twice is the same as clearing once. */
  lemma ClearHistoryIdempotent(st: State, userId: Id)
    requires userId in st.users
    ensures ClearHistory(ClearHistory(st, userId).value, userId) == ClearHistory(st, userId)
  {
    var once := ClearHistory(st, userId).value;
    var twice := ClearHistory(once, userId).value;
    assert twice.checkIns == once.checkIns;
  }

  /** Deleting the visitor's records leaves every other visitor's history as
      it was. */
  lemma {:induction false} DeleteKeepsOtherHistories(st: State, userId: Id, other: Id)
    requires userId in st.users && other in st.users && other != userId
    ensures DeleteAllCheckInsForUser(st, userId).Ok?
    ensures GetHistory(DeleteAllCheckInsForUser(st, userId).value, other) == GetHistory(st, other)
  {
    var cs := st.checkIns;
    FilterOtherUnchanged(cs, userId, other);
  }

  lemma {:induction false} FilterOtherUnchanged(cs: seq<CheckIn>, userId: Id, other: Id)
    requires other != userId
    ensures VisibleOf(WithoutUser(cs, userId), other) == VisibleOf(cs, other)
  {
    if |cs| > 0 {
      var init := cs[..|cs| - 1];
      var last := cs[|cs| - 1];
      FilterOtherUnchanged(init, userId, other);
      var w := WithoutUser(cs, userId);
      if last.userId != userId {
        assert w[..|w| - 1] == WithoutUser(init, userId);
      } else {
        assert w == WithoutUser(init, userId);
      }
    }
  }
}
