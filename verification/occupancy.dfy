/** The live visitor count and the venue's open/closed status. The count is
    the number of users flagged as checked in plus an adjustment operators
    move by hand; both the adjustment and the status live in the server
    process, not in the store. */
module Occupancy {
  import opened Common
  import opened Users
  import opened Store

  /** Fixed capacity of the venue. */
  const MaxVisitors: int := 500

  /** Ids of the users currently flagged as checked in. */
  function CheckedInIds(users: Users): set<Id> {
    set id | id in users && users[id].isCheckedIn
  }

  /** `User.count({ isCheckedIn: true })`. */
  function CheckedInCount(users: Users): nat {
    |CheckedInIds(users)|
  }

  /** The count the service reports. */
  function Total(st: State): int {
    CheckedInCount(st.users) + st.adjustment
  }

  /** `getCheckedInCount`: reports the count and changes nothing. */
  function GetCheckedInCount(st: State): (r: (State, int))
    ensures r.0 == st
    ensures r.1 == CheckedInCount(st.users) + st.adjustment
  {
    (st, Total(st))
  }

  /** `getCheckedInCountPlus`: raises the adjustment by one while it is below
      `MaxVisitors - 1`, then reports the count. */
  function Plus(st: State): (r: (State, int))
    ensures r.0 == st.(adjustment := r.0.adjustment)
    ensures r.1 == Total(r.0)
    ensures st.adjustment < MaxVisitors - 1 ==> r.1 == Total(st) + 1
    ensures st.adjustment >= MaxVisitors - 1 ==> r.0 == st
    ensures r.0.adjustment <= if st.adjustment < MaxVisitors - 1 then MaxVisitors - 1 else st.adjustment
  {
    var st' := if st.adjustment < MaxVisitors - 1 then st.(adjustment := st.adjustment + 1) else st;
    (st', Total(st'))
  }

  /** `getCheckedInCountMinus`: lowers the adjustment by one while the count
      is positive, then reports the count. */
  function Minus(st: State): (r: (State, int))
    ensures r.0 == st.(adjustment := r.0.adjustment)
    ensures r.1 == Total(r.0)
    ensures r.1 == if Total(st) > 0 then Total(st) - 1 else Total(st)
    // a decrement never takes a non-negative count below zero
    ensures Total(st) >= 0 ==> r.1 >= 0
  {
    var count: int := CheckedInCount(st.users);
    var st' := if st.adjustment > -count then st.(adjustment := st.adjustment - 1) else st;
    (st', Total(st'))
  }

  /** `checkOutAllUsers`: clears every user's flag and the adjustment;
      tickets and check-ins are untouched. */
  function CheckOutAll(st: State): (r: State)
    ensures r.users.Keys == st.users.Keys
    ensures forall id :: id in r.users ==> r.users[id] == st.users[id].(isCheckedIn := false)
    ensures r.adjustment == 0
    ensures r == st.(users := r.users, adjustment := 0)
    ensures CheckedInCount(r.users) == 0 && Total(r) == 0
  {
    var users := map id | id in st.users :: st.users[id].(isCheckedIn := false);
    assert CheckedInIds(users) == {};
    st.(users := users, adjustment := 0)
  }

  /** `changeStatus`: flips between closed and open and reports the new
      status; nothing else changes. */
  function ChangeStatus(st: State): (r: (State, string))
    ensures r.0 == st.(status := r.0.status)
    ensures r.0.status != st.status
    ensures r.1 == StatusName(r.0.status)
    ensures r.1 in {"open", "closed"}
  {
    var s := if st.status == Closed then Open else Closed;
    (st.(status := s), StatusName(s))
  }

  /** `getStatus`: reports the status and changes nothing. */
  function GetStatus(st: State): (r: (State, string))
    ensures r.0 == st
    ensures r.1 == (if st.status.Open? then "open" else "closed")
  {
    (st, StatusName(st.status))
  }

  /** The process starts closed, and two flips restore the status. */
  lemma StatusToggle(st: State)
    ensures GetStatus(Initial).1 == "closed"
    ensures ChangeStatus(Initial).1 == "open"
    ensures ChangeStatus(ChangeStatus(st).0).0 == st
  {
  }

  /** `n` consecutive increments. */
  function PlusN(st: State, n: nat): State
    decreases n
  {
    if n == 0 then st else PlusN(Plus(st).0, n - 1)
  }

  /** `n` consecutive decrements. */
  function MinusN(st: State, n: nat): State
    decreases n
  {
    if n == 0 then st else MinusN(Minus(st).0, n - 1)
  }

  function Min(a: int, b: int): int { if a <= b then a else b }
  function Max(a: int, b: int): int { if a >= b then a else b }

  /** After `n` increments the adjustment is clamped at `MaxVisitors - 1`
      (and an adjustment already at or above it stays where it was). */
  lemma {:induction false} RepeatedPlus(st: State, n: nat)
    ensures PlusN(st, n).adjustment == Max(st.adjustment, Min(st.adjustment + n, MaxVisitors - 1))
    ensures PlusN(st, n) == st.(adjustment := PlusN(st, n).adjustment)
    decreases n
  {
    if n > 0 {
      RepeatedPlus(Plus(st).0, n - 1);
    }
  }

  /** After `n` decrements the adjustment is clamped at minus the number of
      checked-in users, so the count stops at zero. */
  lemma {:induction false} RepeatedMinus(st: State, n: nat)
    ensures var c: int := CheckedInCount(st.users);
            MinusN(st, n).adjustment == Min(st.adjustment, Max(st.adjustment - n, -c))
    ensures MinusN(st, n) == st.(adjustment := MinusN(st, n).adjustment)
    decreases n
  {
    if n > 0 {
      RepeatedMinus(Minus(st).0, n - 1);
    }
  }

  /** The bound is on the adjustment, not on the total: with anyone checked
      in, increments can push the reported count to `MaxVisitors` and past it. */
  lemma PlusBoundsAdjustmentNotTotal(st: State)
    requires CheckedInCount(st.users) >= 1
    requires st.adjustment == MaxVisitors - 2
    ensures Plus(st).1 >= MaxVisitors
  {
  }
}
