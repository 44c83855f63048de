/** The analytics queries: every check-in (or those inside a date interval)
    with its visitor's profile, reduced to the requested fields, in
    chronological order. */
module Analytics {
  import opened Common
  import opened Users
  import opened Store
  import opened Sorting
  import opened Ledger
  import Validation

  /** The query's entries in their order, as the validator hands them over. */
  type Query = seq<(string, Validation.Value)>

  /** The keys whose value is exactly the number 1, in query order. */
  function SelectedFields(q: Query): (r: seq<string>)
    ensures forall k :: k in r <==> (k, Validation.Num(1.0)) in q
    ensures |r| <= |q|
  {
    if |q| == 0 then []
    else SelectedFields(q[..|q| - 1]) + (if q[|q| - 1].1 == Validation.Num(1.0) then [q[|q| - 1].0] else [])
  }

  /** The profile fields a populated visitor shows when no field is
      selected (the password is never serialised). */
  const ProfileFields: set<string> :=
    {"email", "firstName", "lastName", "isCheckedIn", "dateOfBirth", "gender", "university", "city", "role"}

  /** Populating with an empty field list selects the whole profile. */
  function Shown(selected: seq<string>): (r: set<string>)
    ensures |selected| == 0 ==> r == ProfileFields
    ensures |selected| > 0 ==> forall k :: k in r <==> k in selected
  {
    if |selected| == 0 then ProfileFields else set k | k in selected
  }

  /** A visitor as it appears in a result row: their id always, and the
      listed fields of their profile. */
  datatype UserView = UserView(user: User, shown: set<string>)

  /** One result: the check-in's id and date, and its visitor, or nothing if
      the visitor no longer exists. */
  datatype Row = Row(id: Id, date: Time, user: Option<UserView>)

  function RowOf(c: CheckIn, users: Users, shown: set<string>): Row {
    Row(c.id, c.date, if c.userId in users then Some(UserView(users[c.userId], shown)) else None)
  }

  function RowDate(r: Row): int { r.date }

  /** Inclusive date bounds, or none at all. */
  predicate InRange(d: Time, bounds: Option<(Time, Time)>) {
    bounds.None? || (bounds.value.0 <= d && d <= bounds.value.1)
  }

  /** The rows of the check-ins within `bounds`, in stored order. */
  function RowsIn(cs: seq<CheckIn>, bounds: Option<(Time, Time)>, users: Users, shown: set<string>): (r: seq<Row>)
    ensures forall x :: x in r ==> InRange(x.date, bounds)
    ensures forall c :: c in cs && InRange(c.date, bounds) ==> RowOf(c, users, shown) in r
    ensures forall x :: x in r ==> exists c :: c in cs && x == RowOf(c, users, shown)
  {
    if |cs| == 0 then []
    else
      var c := cs[|cs| - 1];
      var init := RowsIn(cs[..|cs| - 1], bounds, users, shown);
      assert forall x :: x in cs[..|cs| - 1] ==> x in cs;
      init + (if InRange(c.date, bounds) then [RowOf(c, users, shown)] else [])
  }

  /** The end of the interval, moved one day later when both ends fall on
      the same calendar day. */
  function WidenedEnd(start: Time, end: Time, cal: Calendar): (e: Time)
    ensures cal.dayOf(start) == cal.dayOf(end) ==> e == cal.nextDay(end)
    ensures cal.dayOf(start) != cal.dayOf(end) ==> e == end
  {
    if cal.dayOf(start) == cal.dayOf(end) then cal.nextDay(end) else end
  }

  /** `queryTimeInterval`: the check-ins dated from `start` to the widened
      end, both inclusive, ascending by date. */
  function QueryTimeInterval(st: State, q: Query, start: Time, end: Time, cal: Calendar): (r: seq<Row>)
    ensures SortedBy(r, RowDate)
    ensures multiset(r) == multiset(RowsIn(st.checkIns, Some((start, WidenedEnd(start, end, cal))), st.users,
                                           Shown(SelectedFields(q))))
    ensures forall x :: x in r ==> start <= x.date <= WidenedEnd(start, end, cal)
  {
    var rows := RowsIn(st.checkIns, Some((start, WidenedEnd(start, end, cal))), st.users, Shown(SelectedFields(q)));
    var sorted := SortBy(rows, RowDate);
    SameMultisetSameElements(sorted, rows);
    sorted
  }

  /** `queryAllTime`: every check-in, ascending by date. */
  function QueryAllTime(st: State, q: Query): (r: seq<Row>)
    ensures SortedBy(r, RowDate)
    ensures |r| == |st.checkIns|
    ensures multiset(r) == multiset(RowsIn(st.checkIns, None, st.users, Shown(SelectedFields(q))))
  {
    var rows := RowsIn(st.checkIns, None, st.users, Shown(SelectedFields(q)));
    AllRowsCount(st.checkIns, st.users, Shown(SelectedFields(q)));
    SortBy(rows, RowDate)
  }

  lemma {:induction false} AllRowsCount(cs: seq<CheckIn>, users: Users, shown: set<string>)
    ensures |RowsIn(cs, None, users, shown)| == |cs|
  {
    if |cs| > 0 {
      AllRowsCount(cs[..|cs| - 1], users, shown);
    }
  }

  /** A check-in inside the interval is reported, one outside is not. */
  lemma IntervalMembership(st: State, q: Query, start: Time, end: Time, cal: Calendar, c: CheckIn)
    requires c in st.checkIns
    ensures var row := RowOf(c, st.users, Shown(SelectedFields(q)));
            start <= c.date <= WidenedEnd(start, end, cal) ==> row in QueryTimeInterval(st, q, start, end, cal)
    ensures !(start <= c.date <= WidenedEnd(start, end, cal)) ==>
            forall x :: x in QueryTimeInterval(st, q, start, end, cal) ==> x.id != c.id || x.date != c.date
  {
    var r := QueryTimeInterval(st, q, start, end, cal);
    var row := RowOf(c, st.users, Shown(SelectedFields(q)));
    if start <= c.date <= WidenedEnd(start, end, cal) {
      assert row in multiset(RowsIn(st.checkIns, Some((start, WidenedEnd(start, end, cal))), st.users,
                                    Shown(SelectedFields(q))));
      assert row in multiset(r);
    }
  }

  /** Neither query looks at `inHistory`: hiding a visitor's history never
      changes what the analytics report. */
  lemma ClearHistoryKeepsAnalytics(st: State, userId: Id, q: Query, start: Time, end: Time, cal: Calendar)
    requires userId in st.users
    ensures QueryTimeInterval(ClearHistory(st, userId).value, q, start, end, cal) == QueryTimeInterval(st, q, start, end, cal)
    ensures QueryAllTime(ClearHistory(st, userId).value, q) == QueryAllTime(st, q)
  {
    var shown := Shown(SelectedFields(q));
    RowsIgnoreHistory(st.checkIns, userId, Some((start, WidenedEnd(start, end, cal))), st.users, shown);
    RowsIgnoreHistory(st.checkIns, userId, None, st.users, shown);
  }

  lemma {:induction false} RowsIgnoreHistory(cs: seq<CheckIn>, userId: Id, bounds: Option<(Time, Time)>,
                                             users: Users, shown: set<string>)
    ensures RowsIn(Hide(cs, userId), bounds, users, shown) == RowsIn(cs, bounds, users, shown)
  {
    if |cs| > 0 {
      var h := Hide(cs, userId);
      assert h[..|h| - 1] == Hide(cs[..|cs| - 1], userId);
      RowsIgnoreHistory(cs[..|cs| - 1], userId, bounds, users, shown);
    }
  }

  /** The test queries: flags set to 0 or absent are left out, and with no
      flag at all the whole profile is shown. */
  lemma SelectionExamples(s: Validation.Value, e: Validation.Value)
    requires s != Validation.Num(1.0) && e != Validation.Num(1.0)
    ensures Shown(SelectedFields([("startDate", s), ("endDate", e), ("city", Validation.Num(1.0)),
                                  ("gender", Validation.Num(1.0)), ("dateOfBirth", Validation.Num(0.0)),
                                  ("university", Validation.Num(0.0))])) == {"city", "gender"}
    ensures Shown(SelectedFields([("startDate", s), ("endDate", e)])) == ProfileFields
  {
    var q := [("startDate", s), ("endDate", e), ("city", Validation.Num(1.0)),
              ("gender", Validation.Num(1.0)), ("dateOfBirth", Validation.Num(0.0)),
              ("university", Validation.Num(0.0))];
    assert "city" in SelectedFields(q);
  }
}
