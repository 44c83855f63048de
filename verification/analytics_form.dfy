/** The admin's analytics screen: which charts are ticked, the period
    chosen, the request it sends and what a reply does to the screen. */
module AnalyticsForm {
  import opened Common
  import opened UrlText
  import Charts

  /** The five chart switches. */
  datatype Categories = Categories(gender: bool, age: bool, university: bool, city: bool, time: bool)

  const NoCategories := Categories(false, false, false, false, false)

  /** All time, or an interval between two `yyyy-MM-dd` dates ("" while
      unset). */
  datatype Period = Period(allTime: bool, interval: bool, startDate: string, endDate: string)

  datatype Screen = Screen(
    category: Categories,
    time: Period,
    results: seq<Charts.Entry>,
    errMsg: string,
    display: Categories,
    dropdownVisible: bool)

  const Initial := Screen(NoCategories, Period(false, false, "", ""), [], "", NoCategories, false)

  /** `handleCategoryChange`: the label with id "1", "2", "3", "4" or "9"
      flips gender, age, university, city or time; every click clears the
      error message. */
  function HandleCategoryChange(s: Screen, id: string): (r: Screen)
    ensures r.errMsg == ""
    ensures r == s.(category := r.category, errMsg := "")
    ensures r.category.gender == (if id == "1" then !s.category.gender else s.category.gender)
    ensures r.category.age == (if id == "2" then !s.category.age else s.category.age)
    ensures r.category.university == (if id == "3" then !s.category.university else s.category.university)
    ensures r.category.city == (if id == "4" then !s.category.city else s.category.city)
    ensures r.category.time == (if id == "9" then !s.category.time else s.category.time)
  {
    var c := s.category;
    var c' :=
      if id == "1" then c.(gender := !c.gender)
      else if id == "2" then c.(age := !c.age)
      else if id == "3" then c.(university := !c.university)
      else if id == "4" then c.(city := !c.city)
      else if id == "9" then c.(time := !c.time)
      else c;
    s.(category := c', errMsg := "")
  }

  /** Clicking a label twice leaves the ticks as they were. */
  lemma CategoryClickTwice(s: Screen, id: string)
    ensures HandleCategoryChange(HandleCategoryChange(s, id), id).category == s.category
  {
  }

  /** The interval's ends are in order whenever both are set. */
  predicate Ordered(p: Period) {
    p.startDate != "" && p.endDate != "" ==> StrLe(p.startDate, p.endDate)
  }

  /** `handleTimeChange`: id "5" chooses all time, "6" the interval; "7"
      takes a start date unless it lies after the end date, "8" an end
      date unless it lies before the start date; the error is cleared. */
  function HandleTimeChange(s: Screen, id: string, val: string): (r: Screen)
    ensures r.errMsg == ""
    ensures r == s.(time := r.time, errMsg := "")
    ensures id == "5" ==> r.time == s.time.(allTime := true, interval := false)
    ensures id == "6" ==> r.time == s.time.(allTime := false, interval := true)
    ensures id == "7" ==> r.time == if s.time.endDate == "" || StrLe(val, s.time.endDate)
                                    then s.time.(startDate := val) else s.time
    ensures id == "8" ==> r.time == if s.time.startDate == "" || StrLe(s.time.startDate, val)
                                    then s.time.(endDate := val) else s.time
    ensures id !in {"5", "6", "7", "8"} ==> r.time == s.time
  {
    var t := s.time;
    var t' :=
      if id == "5" then t.(allTime := true, interval := false)
      else if id == "6" then t.(interval := true, allTime := false)
      else if id == "7" then (if t.endDate == "" || StrLe(val, t.endDate) then t.(startDate := val) else t)
      else if id == "8" then (if t.startDate == "" || StrLe(t.startDate, val) then t.(endDate := val) else t)
      else t;
    s.(time := t', errMsg := "")
  }

  /** No choice of dates puts the interval out of order, and the two period
      buttons never both end up chosen. */
  lemma TimeChangeKeepsPeriodSound(s: Screen, id: string, val: string)
    requires Ordered(s.time) && !(s.time.allTime && s.time.interval)
    ensures Ordered(HandleTimeChange(s, id, val).time)
    ensures !(HandleTimeChange(s, id, val).time.allTime && HandleTimeChange(s, id, val).time.interval)
  {
  }

  function Bit(b: bool): string { if b then "1" else "0" }

  /** The query of `handleSubmit`: the interval's dates when the interval
      is chosen, then one flag per profile field (the time switch is not
      sent). */
  function QueryParams(s: Screen): (ps: seq<(string, string)>)
    ensures |ps| >= 4
  {
    (if s.time.interval then [("startDate", s.time.startDate), ("endDate", s.time.endDate)] else [])
      + Flags(s.category)
  }

  /** One flag per profile field, in the order the request lists them. */
  function Flags(c: Categories): seq<(string, string)> {
    [("gender", Bit(c.gender)), ("dateOfBirth", Bit(c.age)),
     ("university", Bit(c.university)), ("city", Bit(c.city))]
  }

  /** The route the request goes to. */
  function QueryPath(s: Screen): string {
    "/analytics/" + (if s.time.interval then "queryTimeInterval" else "queryAllTime")
  }

  /** The URL `handleSubmit` requests. */
  function QueryUrl(s: Screen): string {
    QueryPath(s) + "?" + QueryString(QueryParams(s))
  }

  /** The first `?` of the URL ends the path, which names the interval query
      exactly when the interval is chosen; everything after it is the query
      string of the request's pairs. */
  lemma QueryUrlParts(s: Screen)
    ensures '?' in QueryUrl(s)
    ensures var u := QueryUrl(s); var k := IndexOf(u, '?');
      && u[..k] == QueryPath(s)
      && (u[..k] == "/analytics/queryTimeInterval" <==> s.time.interval)
      && u[k + 1..] == QueryString(QueryParams(s))
  {
    var p := QueryPath(s);
    assert p == "/analytics/queryTimeInterval" || p == "/analytics/queryAllTime";
    assert '?' !in "/analytics/queryTimeInterval" && '?' !in "/analytics/queryAllTime";
    assert "/analytics/queryTimeInterval"[16] != "/analytics/queryAllTime"[16];
    SplitAtMark(p, QueryString(QueryParams(s)));
  }

  /** Text with no `?` followed by `?` and a rest splits back at its first `?`. */
  lemma SplitAtMark(p: string, q: string)
    requires '?' !in p
    ensures var u := p + "?" + q; '?' in u && IndexOf(u, '?') == |p| && u[..|p|] == p && u[|p| + 1..] == q
  {
    var u := p + "?" + q;
    assert u[..|p|] == p && u[|p|] == '?';
    IndexOfAt(u, '?', |p|);
    assert u[|p| + 1..] == q;
  }

  /** Date inputs yield `yyyy-MM-dd` or nothing, never an `&`. */
  predicate PlainDates(p: Period) {
    '&' !in p.startDate && '&' !in p.endDate
  }

  /** What the server reads from the request: the interval's dates exactly
      when the interval is chosen, and a field flagged "1" exactly when its
      chart is ticked. */
  lemma ServerReadsTheTicks(s: Screen)
    requires PlainDates(s.time)
    ensures var q := ParseQuery(QueryString(QueryParams(s)));
            && (("gender", "1") in q <==> s.category.gender)
            && (("dateOfBirth", "1") in q <==> s.category.age)
            && (("university", "1") in q <==> s.category.university)
            && (("city", "1") in q <==> s.category.city)
            && (s.time.interval <==> ("startDate", s.time.startDate) in q && ("endDate", s.time.endDate) in q)
  {
    PlainParams(s);
    QueryRoundTrip(QueryParams(s));
    TicksInParams(s);
  }

  lemma PlainParams(s: Screen)
    requires PlainDates(s.time)
    ensures Plain(QueryParams(s))
  {
    assert '&' !in "gender" && '=' !in "gender" && '&' !in "dateOfBirth" && '=' !in "dateOfBirth";
    assert '&' !in "university" && '=' !in "university" && '&' !in "city" && '=' !in "city";
    assert '&' !in "startDate" && '=' !in "startDate" && '&' !in "endDate" && '=' !in "endDate";
    assert '&' !in Bit(true) && '&' !in Bit(false);
  }

  lemma TicksInParams(s: Screen)
    ensures var ps := QueryParams(s);
            && (("gender", "1") in ps <==> s.category.gender)
            && (("dateOfBirth", "1") in ps <==> s.category.age)
            && (("university", "1") in ps <==> s.category.university)
            && (("city", "1") in ps <==> s.category.city)
            && (s.time.interval <==> ("startDate", s.time.startDate) in ps && ("endDate", s.time.endDate) in ps)
  {
    var ps := QueryParams(s);
    var dates := [("startDate", s.time.startDate), ("endDate", s.time.endDate)];
    FlagsHoldTicks(s.category, s.time.startDate, s.time.endDate);
    if s.time.interval {
      assert ps == dates + Flags(s.category);
      assert ps[0] == dates[0] && ps[1] == dates[1];
    } else {
      assert ps == Flags(s.category);
    }
  }

  lemma FlagsHoldTicks(c: Categories, start: string, end: string)
    ensures ("gender", "1") in Flags(c) <==> c.gender
    ensures ("dateOfBirth", "1") in Flags(c) <==> c.age
    ensures ("university", "1") in Flags(c) <==> c.university
    ensures ("city", "1") in Flags(c) <==> c.city
    ensures ("startDate", start) !in Flags(c) && ("endDate", end) !in Flags(c)
  {
    var f := Flags(c);
    assert forall i :: 0 <= i < 4 ==> f[i].0 in {"gender", "dateOfBirth", "university", "city"};
  }

  /** The reply to the request: the query's rows, or a failure. The reply
      is applied to the screen `s` as it stands when the reply arrives, which
      may differ from the screen the URL was built from; the charts shown are
      copied from the ticks of `s`. */
  function HandleSubmit(s: Screen, reply: Option<seq<Charts.Entry>>): (r: Screen)
    ensures reply.Some? ==> r == s.(results := reply.value, display := s.category)
    ensures reply.None? ==> r == s.(errMsg := "Statistieken ophalen mislukt")
  {
    match reply
    case Some(rows) => s.(results := rows, display := s.category)
    case None => s.(errMsg := "Statistieken ophalen mislukt")
  }

  /** Charts appear only after a successful request, and then exactly the
      ones ticked when the reply arrives; a failed request leaves them alone. */
  lemma DisplayFollowsLastSuccess(s: Screen, reply: Option<seq<Charts.Entry>>)
    ensures HandleSubmit(s, reply).display == if reply.Some? then s.category else s.display
    ensures HandleSubmit(s, reply).category == s.category
  {
  }

  /** A tick changed while the request is in flight shows up in the charts
      even though the request was built without it: the reply displays the
      gender chart exactly when the URL did not ask for gender data. */
  lemma ClickInFlightShown(s: Screen, rows: seq<Charts.Entry>)
    ensures var later := HandleCategoryChange(s, "1");
      && HandleSubmit(later, Some(rows)).display.gender == !s.category.gender
      && (("gender", "1") in QueryParams(s) <==> s.category.gender)
  {
    TicksInParams(s);
  }

  /** `handleDropdown`: show or hide the category menu. */
  function HandleDropdown(s: Screen): (r: Screen)
    ensures r.dropdownVisible != s.dropdownVisible
    ensures r.(dropdownVisible := s.dropdownVisible) == s
  {
    s.(dropdownVisible := !s.dropdownVisible)
  }
}
