/** The four analytics charts the admin sees: each reduces the rows of an
    analytics query to the numbers it plots. */
module Charts {
  import opened Common
  import opened Tally

  /** The visitor fields a chart reads; an absent text is "". */
  datatype Profile = Profile(gender: string, dateOfBirth: Option<Time>, university: string, city: string)

  /** One query row as the client sees it: the calendar day (a day number)
      and hour of the check-in in local time, and the visitor, if any. */
  datatype Entry = Entry(day: int, hour: int, user: Option<Profile>)

  /** Rows with a visitor. */
  function WithUser(rs: seq<Entry>): nat {
    if |rs| == 0 then 0 else WithUser(rs[..|rs| - 1]) + (if rs[|rs| - 1].user.Some? then 1 else 0)
  }

  // ---------------------------------------------------------------- gender

  const GenderLabels: seq<string> := ["Man", "Vrouw", "Anders"]

  /** The slice of the pie a visitor belongs to: any gender but "male" and
      "female", a missing one included, is "Anders". */
  function GenderSlot(p: Profile): nat {
    if p.gender == "male" then 0 else if p.gender == "female" then 1 else 2
  }

  /** Rows with a visitor in slice `slot`. */
  function GenderCount(rs: seq<Entry>, slot: nat): nat {
    if |rs| == 0 then 0
    else
      var e := rs[|rs| - 1];
      GenderCount(rs[..|rs| - 1], slot) + (if e.user.Some? && GenderSlot(e.user.value) == slot then 1 else 0)
  }

  /** Every row with a visitor is in exactly one slice. */
  lemma {:induction false} SlicesCoverVisitors(rs: seq<Entry>)
    ensures GenderCount(rs, 0) + GenderCount(rs, 1) + GenderCount(rs, 2) == WithUser(rs)
  {
    if |rs| > 0 {
      SlicesCoverVisitors(rs[..|rs| - 1]);
    }
  }

  /** `GenderChart.componentDidMount`: the sizes of the three slices. */
  method GenderChart(rs: seq<Entry>) returns (data: seq<nat>)
    ensures |data| == |GenderLabels|
    ensures forall s :: 0 <= s < 3 ==> data[s] == GenderCount(rs, s)
    ensures data[0] + data[1] + data[2] == WithUser(rs)
  {
    data := [0, 0, 0];
    var i := 0;
    while i < |rs|
      invariant 0 <= i <= |rs|
      invariant |data| == 3
      invariant forall s :: 0 <= s < 3 ==> data[s] == GenderCount(rs[..i], s)
    {
      assert rs[..i + 1][..i] == rs[..i];
      var e := rs[i];
      if e.user.Some? {
        if e.user.value.gender == "male" {
          data := data[0 := data[0] + 1];
        } else if e.user.value.gender == "female" {
          data := data[1 := data[1] + 1];
        } else {
          data := data[2 := data[2] + 1];
        }
      }
      i := i + 1;
    }
    assert rs[..i] == rs;
    SlicesCoverVisitors(rs);
  }

  // ------------------------------------------------------ university, city

  /** The field the chart counts: the university for "university", the city
      for any other category. */
  function FieldOf(p: Profile, category: string): string {
    if category == "university" then p.university else p.city
  }

  /** The non-empty values of the field, row by row. */
  function Values(rs: seq<Entry>, category: string): (r: seq<string>)
    ensures forall v :: v in r ==> v != ""
  {
    if |rs| == 0 then []
    else
      var e := rs[|rs| - 1];
      Values(rs[..|rs| - 1], category)
        + (if e.user.Some? && FieldOf(e.user.value, category) != "" then [FieldOf(e.user.value, category)] else [])
  }

  /** The distinct elements of `s` in order of first occurrence. */
  function FirstOccurrences(s: seq<string>): (r: seq<string>)
    ensures forall x :: x in r <==> x in s
    ensures forall i, j :: 0 <= i < j < |r| ==> r[i] != r[j]
  {
    if |s| == 0 then []
    else
      var init := FirstOccurrences(s[..|s| - 1]);
      assert forall x :: x in s <==> x in s[..|s| - 1] || x == s[|s| - 1];
      if s[|s| - 1] in init then init else init + [s[|s| - 1]]
  }

  /** The (value, count) map the chart fills, in insertion order. */
  function CountValues(vs: seq<string>): (t: Tally<string>)
    ensures DistinctKeys(t)
    ensures Keys(t) == FirstOccurrences(vs)
    ensures forall k :: Get(t, k) == multiset(vs)[k]
  {
    if |vs| == 0 then []
    else
      var init := vs[..|vs| - 1];
      var t := CountValues(init);
      var r := Bump(t, vs[|vs| - 1]);
      BumpCounts(t, vs[|vs| - 1]);
      KeysDistinctAfter(t, r, vs[|vs| - 1]);
      assert vs == init + [vs[|vs| - 1]];
      r
  }

  /** `UniCityChart.componentDidMount`: one bar per value, in order of first
      appearance, as tall as the number of rows with that value; rows
      without a visitor or with the field empty are skipped. */
  method UniCityChart(rs: seq<Entry>, category: string) returns (labels: seq<string>, data: seq<nat>)
    ensures labels == FirstOccurrences(Values(rs, category))
    ensures |data| == |labels|
    ensures forall i :: 0 <= i < |data| ==> data[i] == multiset(Values(rs, category))[labels[i]]
  {
    var t: Tally<string> := [];
    var i := 0;
    while i < |rs|
      invariant 0 <= i <= |rs|
      invariant t == CountValues(Values(rs[..i], category))
    {
      ghost var vs := Values(rs[..i], category);
      assert rs[..i + 1][..i] == rs[..i];
      var e := rs[i];
      if e.user.Some? && FieldOf(e.user.value, category) != "" {
        var val := FieldOf(e.user.value, category);
        assert Values(rs[..i + 1], category) == vs + [val];
        assert (vs + [val])[..|vs|] == vs;
        t := Bump(t, val);
      } else {
        assert Values(rs[..i + 1], category) == vs;
      }
      i := i + 1;
    }
    assert rs[..i] == rs;
    labels, data := Bars(t);
  }

  /** The map split into its labels and its counts. */
  method Bars(t: Tally<string>) returns (labels: seq<string>, data: seq<nat>)
    requires DistinctKeys(t)
    ensures labels == Keys(t)
    ensures |data| == |labels|
    ensures forall i :: 0 <= i < |data| ==> data[i] == Get(t, labels[i])
  {
    labels := Keys(t);
    data := seq(|t|, j requires 0 <= j < |t| => t[j].1);
    forall j | 0 <= j < |t|
      ensures data[j] == Get(t, labels[j])
    {
      EntryIsGet(t, j);
    }
  }

  /** The bars add up to the rows counted: every value has its bar and no
      bar is counted twice. */
  lemma UniCityCountsAll(rs: seq<Entry>, category: string, labels: seq<string>, data: seq<nat>)
    requires labels == FirstOccurrences(Values(rs, category))
    requires |data| == |labels|
    requires forall i :: 0 <= i < |data| ==> data[i] == multiset(Values(rs, category))[labels[i]]
    ensures SumOf(data) == |Values(rs, category)|
  {
    var vs := Values(rs, category);
    SumIsCountList(data, multiset(vs), labels);
    CountListAll(vs, labels);
  }

  function SumOf(s: seq<nat>): nat {
    if |s| == 0 then 0 else SumOf(s[..|s| - 1]) + s[|s| - 1]
  }

  ghost predicate Distinct<T>(s: seq<T>) {
    forall i, j :: 0 <= i < j < |s| ==> s[i] != s[j]
  }

  /** How often the labels occur in `m`, added up. */
  ghost function CountList<T>(m: multiset<T>, labels: seq<T>): nat {
    if |labels| == 0 then 0 else CountList(m, labels[..|labels| - 1]) + m[labels[|labels| - 1]]
  }

  lemma {:induction false} SumIsCountList<T>(data: seq<nat>, m: multiset<T>, labels: seq<T>)
    requires |data| == |labels|
    requires forall i :: 0 <= i < |data| ==> data[i] == m[labels[i]]
    ensures SumOf(data) == CountList(m, labels)
  {
    if |labels| > 0 {
      var n := |labels| - 1;
      SumIsCountList(data[..n], m, labels[..n]);
    }
  }

  lemma {:induction false} CountListEmpty<T>(labels: seq<T>)
    ensures CountList(multiset{}, labels) == 0
  {
    if |labels| > 0 {
      CountListEmpty(labels[..|labels| - 1]);
    }
  }

  lemma {:induction false} CountListAdd<T>(m: multiset<T>, x: T, labels: seq<T>)
    requires Distinct(labels)
    ensures CountList(m + multiset{x}, labels) == CountList(m, labels) + (if x in labels then 1 else 0)
  {
    if |labels| > 0 {
      var n := |labels| - 1;
      CountListAdd(m, x, labels[..n]);
      assert x in labels <==> x in labels[..n] || x == labels[n];
      if x == labels[n] {
        assert x !in labels[..n];
      }
    }
  }

  /** Counting over a duplicate-free list holding every value counts each
      value once. */
  lemma {:induction false} CountListAll<T>(vs: seq<T>, labels: seq<T>)
    requires Distinct(labels)
    requires forall v :: v in vs ==> v in labels
    ensures CountList(multiset(vs), labels) == |vs|
  {
    if |vs| == 0 {
      CountListEmpty(labels);
    } else {
      var init := vs[..|vs| - 1];
      assert vs == init + [vs[|vs| - 1]];
      assert forall v :: v in init ==> v in vs;
      CountListAll(init, labels);
      CountListAdd(multiset(init), vs[|vs| - 1], labels);
    }
  }

  // ------------------------------------------------------------------- age

  /** The ages of the visitors with a birth date, row by row; `ageOf` is the
      whole years from now to a birth date. */
  function Ages(rs: seq<Entry>, ageOf: Time -> int): seq<int> {
    if |rs| == 0 then []
    else
      var e := rs[|rs| - 1];
      Ages(rs[..|rs| - 1], ageOf)
        + (if e.user.Some? && e.user.value.dateOfBirth.Some? then [ageOf(e.user.value.dateOfBirth.value)] else [])
  }

  function Youngest(s: seq<int>): (m: int)
    requires |s| > 0
    ensures m in s && forall x :: x in s ==> m <= x
  {
    if |s| == 1 then s[0]
    else
      var m := Youngest(s[..|s| - 1]);
      assert forall x :: x in s ==> x in s[..|s| - 1] || x == s[|s| - 1];
      if s[|s| - 1] < m then s[|s| - 1] else m
  }

  function Oldest(s: seq<int>): (m: int)
    requires |s| > 0
    ensures m in s && forall x :: x in s ==> x <= m
  {
    if |s| == 1 then s[0]
    else
      var m := Oldest(s[..|s| - 1]);
      assert forall x :: x in s ==> x in s[..|s| - 1] || x == s[|s| - 1];
      if s[|s| - 1] > m then s[|s| - 1] else m
  }

  /** Labels `lo` to `hi` and, for each, how often it occurs in `ages`. */
  function Histogram(ages: seq<int>, lo: int, hi: int): (r: (seq<int>, seq<nat>))
    ensures |r.0| == |r.1| == if hi >= lo then hi - lo + 1 else 0
    ensures forall i :: 0 <= i < |r.0| ==> r.0[i] == lo + i && r.1[i] == multiset(ages)[lo + i]
  {
    var n := if hi >= lo then hi - lo + 1 else 0;
    (seq(n, i => lo + i), seq(n, i => multiset(ages)[lo + i]))
  }

  /** The age chart as intended: one label per year from the youngest to
      the oldest visitor, and per label the number of visitors that age. */
  function AgeChart(ages: seq<int>): (r: (seq<int>, seq<nat>))
    ensures |ages| == 0 ==> r == ([], [])
    ensures |ages| > 0 ==> |r.0| > 0 && r.0[0] == Youngest(ages) && r.0[|r.0| - 1] == Oldest(ages)
    ensures forall a :: a in ages ==> a in r.0
    ensures |r.1| == |r.0|
    ensures forall i :: 0 <= i < |r.0| ==> r.0[i] == r.0[0] + i && r.1[i] == multiset(ages)[r.0[i]]
  {
    if |ages| == 0 then ([], [])
    else
      var r := Histogram(ages, Youngest(ages), Oldest(ages));
      assert forall a :: a in ages ==> r.0[a - Youngest(ages)] == a;
      r
  }

  /** Every visitor is counted once. */
  lemma AgeChartCountsAll(ages: seq<int>)
    ensures SumOf(AgeChart(ages).1) == |ages|
  {
    var r := AgeChart(ages);
    SumIsCountList(r.1, multiset(ages), r.0);
    CountListAll(ages, r.0);
  }

  /** The running maximum as written: it starts at `Number.MIN_VALUE`, the
      smallest positive number, not the most negative one. */
  datatype Bound = Tiny | Year(n: int)

  /** Whether a whole number of years exceeds the bound. */
  predicate Exceeds(a: int, b: Bound) {
    match b
    case Tiny => a >= 1
    case Year(n) => a > n
  }

  /** The maximum as written: an age replaces it only when larger. (The
      source compares only an age's first occurrence, which gives the same
      maximum.) */
  function MaxAsWritten(ages: seq<int>): Bound {
    if |ages| == 0 then Tiny
    else
      var m := MaxAsWritten(ages[..|ages| - 1]);
      if Exceeds(ages[|ages| - 1], m) then Year(ages[|ages| - 1]) else m
  }

  /** The last whole number at or below the bound: the loop's last label. */
  function LastLabel(b: Bound): int {
    match b
    case Tiny => 0
    case Year(n) => n
  }

  /** The age chart as written: labels from the youngest age up to the
      last label the bound admits. With no ages at all the start
      (`Number.MAX_VALUE`) lies above the bound and nothing is drawn. */
  function AgeChartAsWritten(ages: seq<int>): (r: (seq<int>, seq<nat>))
    ensures |ages| == 0 ==> r == ([], [])
  {
    if |ages| == 0 then ([], []) else Histogram(ages, Youngest(ages), LastLabel(MaxAsWritten(ages)))
  }

  /** The bound as written is the oldest age once some age is positive, and
      stays at `Number.MIN_VALUE` otherwise. */
  lemma {:induction false} MaxAsWrittenIsOldest(ages: seq<int>)
    requires |ages| > 0
    ensures MaxAsWritten(ages) == if Oldest(ages) >= 1 then Year(Oldest(ages)) else Tiny
  {
    if |ages| > 1 {
      MaxAsWrittenIsOldest(ages[..|ages| - 1]);
    }
  }

  /** The two agree exactly when some visitor's age is zero or more. */
  lemma AsWrittenAgreesUnlessAllNegative(ages: seq<int>)
    requires |ages| > 0
    ensures AgeChartAsWritten(ages) == AgeChart(ages) <==> Oldest(ages) >= 0
  {
    MaxAsWrittenIsOldest(ages);
    var lo, hi := Youngest(ages), Oldest(ages);
    var top := LastLabel(MaxAsWritten(ages));
    assert AgeChartAsWritten(ages) == Histogram(ages, lo, top);
    assert AgeChart(ages) == Histogram(ages, lo, hi);
    if hi >= 0 {
      assert top == hi;
    } else {
      assert top == 0;
      assert |Histogram(ages, lo, top).0| != |Histogram(ages, lo, hi).0|;
    }
  }

  /** A single visitor aged -1 (a birth date in the future) gets the labels
      -1 and 0 as written, and the label -1 alone as intended. */
  lemma NegativeAgeDiscrepancy()
    ensures AgeChartAsWritten([-1]) == ([-1, 0], [1, 0])
    ensures AgeChart([-1]) == ([-1], [1])
  {
    assert MaxAsWritten([-1]) == Tiny;
    var w := AgeChartAsWritten([-1]);
    assert w.0 == [-1, 0];
    assert multiset([-1])[0] == 0;
    assert w.1 == [1, 0];
    var c := AgeChart([-1]);
    assert c.0 == [-1] && c.1 == [1];
  }

  // ------------------------------------------------------------------ time

  /** The opening night a check-in belongs to: the doors open at 23:00, so
      a check-in at any other hour counts for the day before. */
  function Night(e: Entry): int {
    if e.hour == 23 then e.day else e.day - 1
  }

  /** The three lines of the chart. */
  datatype Series = BeforeTwelve | BeforeOne | Total

  predicate InSeries(e: Entry, s: Series) {
    match s
    case BeforeTwelve => e.hour == 23
    case BeforeOne => e.hour == 23 || e.hour == 0
    case Total => true
  }

  /** Rows of series `s` on night `d`. */
  function CountOn(rs: seq<Entry>, s: Series, d: int): nat {
    if |rs| == 0 then 0
    else
      var e := rs[|rs| - 1];
      CountOn(rs[..|rs| - 1], s, d) + (if InSeries(e, s) && Night(e) == d then 1 else 0)
  }

  /** Rows of series `s`. */
  function CountIn(rs: seq<Entry>, s: Series): nat {
    if |rs| == 0 then 0 else CountIn(rs[..|rs| - 1], s) + (if InSeries(rs[|rs| - 1], s) then 1 else 0)
  }

  /** `incrementMapValue`: count one more check-in on night `d`, after
      making sure the night before and the night after are plotted (at zero
      if they had no check-ins). Existing points keep their place. */
  function IncrementMapValue(t: Tally<int>, d: int): (r: Tally<int>)
    ensures Get(r, d) == Get(t, d) + 1
    ensures forall k :: k != d ==> Get(r, k) == Get(t, k)
    ensures Sum(r) == Sum(t) + 1
  {
    BumpCounts(PadZero(t, d - 1), d);
    PadZero(Bump(PadZero(t, d - 1), d), d + 1)
  }

  /** The nights plotted afterwards are the ones before and `d - 1`, `d`
      and `d + 1`. */
  lemma IncrementKeys(t: Tally<int>, d: int)
    ensures forall k :: k in Keys(IncrementMapValue(t, d)) <==> k in Keys(t) || k == d - 1 || k == d || k == d + 1
  {
    var a := PadZero(t, d - 1);
    var b := Bump(a, d);
    var r := PadZero(b, d + 1);
    assert r == IncrementMapValue(t, d);
    PadZeroKeys(t, d - 1);
    BumpKeys(a, d);
    PadZeroKeys(b, d + 1);
    forall k ensures k in Keys(r) <==> k in Keys(t) || k == d - 1 || k == d || k == d + 1 {
      assert k in Keys(r) <==> k in Keys(b) || k == d + 1;
      assert k in Keys(b) <==> k in Keys(a) || k == d;
      assert k in Keys(a) <==> k in Keys(t) || k == d - 1;
    }
  }

  /** Nights already plotted keep their place; missing ones are appended. */
  lemma IncrementKeepsOrder(t: Tally<int>, d: int)
    ensures |t| <= |IncrementMapValue(t, d)| && Keys(IncrementMapValue(t, d))[..|t|] == Keys(t)
  {
    var a := PadZero(t, d - 1);
    var b := Bump(a, d);
    var r := PadZero(b, d + 1);
    KeysAfter(t, a, d - 1);
    KeysAfter(a, b, d);
    KeysAfter(b, r, d + 1);
    PrefixOfPrefix(Keys(r), Keys(b), Keys(a));
    PrefixOfPrefix(Keys(r), Keys(a), Keys(t));
  }

  lemma PrefixOfPrefix<T>(x: seq<T>, y: seq<T>, z: seq<T>)
    requires |z| <= |y| <= |x| && x[..|y|] == y && y[..|z|] == z
    ensures x[..|z|] == z
  {
    assert x[..|z|] == x[..|y|][..|z|];
  }

  /** Padding and counting never plot a night twice. */
  lemma IncrementKeepsDistinct(t: Tally<int>, d: int)
    requires DistinctKeys(t)
    ensures DistinctKeys(IncrementMapValue(t, d))
  {
    var a := PadZero(t, d - 1);
    var b := Bump(a, d);
    KeysDistinctAfter(t, a, d - 1);
    KeysDistinctAfter(a, b, d);
    KeysDistinctAfter(b, PadZero(b, d + 1), d + 1);
  }

  /** One line of the chart: its points in the order the nights were first
      touched. */
  function SeriesOf(rs: seq<Entry>, s: Series): (r: Tally<int>)
    ensures DistinctKeys(r)
    ensures forall d :: Get(r, d) == CountOn(rs, s, d)
    ensures Sum(r) == CountIn(rs, s)
    ensures CountIn(rs, s) == 0 <==> r == []
    ensures forall e :: e in rs && InSeries(e, s) ==> Night(e) - 1 in Keys(r) && Night(e) in Keys(r) && Night(e) + 1 in Keys(r)
  {
    if |rs| == 0 then []
    else
      var init := SeriesOf(rs[..|rs| - 1], s);
      var e := rs[|rs| - 1];
      assert forall x :: x in rs ==> x in rs[..|rs| - 1] || x == e;
      if InSeries(e, s) then
        IncrementKeepsDistinct(init, Night(e));
        IncrementKeys(init, Night(e));
        IncrementMapValue(init, Night(e))
      else init
  }

  /** `TimeChart.componentDidMount`: the before-midnight, before-one and
      total lines. */
  function TimeChart(rs: seq<Entry>): (r: (Tally<int>, Tally<int>, Tally<int>))
    ensures forall d :: Get(r.0, d) == CountOn(rs, BeforeTwelve, d)
    ensures forall d :: Get(r.1, d) == CountOn(rs, BeforeOne, d)
    ensures forall d :: Get(r.2, d) == CountOn(rs, Total, d)
    ensures Sum(r.2) == |rs|
    ensures |rs| == 0 ==> r == ([], [], [])
  {
    TotalCountsAll(rs);
    (SeriesOf(rs, BeforeTwelve), SeriesOf(rs, BeforeOne), SeriesOf(rs, Total))
  }

  lemma {:induction false} TotalCountsAll(rs: seq<Entry>)
    ensures CountIn(rs, Total) == |rs|
  {
    if |rs| > 0 {
      TotalCountsAll(rs[..|rs| - 1]);
    }
  }

  /** Each line lies under the next: before midnight is part of before one,
      which is part of the total. */
  lemma {:induction false} LinesNested(rs: seq<Entry>, d: int)
    ensures CountOn(rs, BeforeTwelve, d) <= CountOn(rs, BeforeOne, d) <= CountOn(rs, Total, d)
  {
    if |rs| > 0 {
      LinesNested(rs[..|rs| - 1], d);
    }
  }

  /** The first check-in of a line plots its night between two zeros. */
  lemma IncrementEmpty(d: int)
    ensures IncrementMapValue([], d) == [(d - 1, 0), (d, 1), (d + 1, 0)]
  {
    var a := PadZero([], d - 1);
    assert a == [(d - 1, 0)];
    assert Keys(a) == [d - 1];
    var b := Bump(a, d);
    assert Bump(a[1..], d) == [(d, 1)];
    assert b == [(d - 1, 0), (d, 1)];
    assert Keys(b) == [d - 1, d];
  }

  /** The test cases, with nights numbered by their day of December 2020:
      a check-in at 23:00 on the 12th counts on all three lines. */
  lemma AtElevenCountsEverywhere()
    ensures TimeChart([Entry(12, 23, None)]) == ([(11, 0), (12, 1), (13, 0)], [(11, 0), (12, 1), (13, 0)], [(11, 0), (12, 1), (13, 0)])
  {
    var rs := [Entry(12, 23, None)];
    assert rs[..0] == [];
    IncrementEmpty(12);
  }

  /** A check-in at 0:30 on the 12th belongs to the night of the 11th and
      is not before midnight. */
  lemma AfterMidnightCountsForNightBefore()
    ensures TimeChart([Entry(12, 0, None)]) == ([], [(10, 0), (11, 1), (12, 0)], [(10, 0), (11, 1), (12, 0)])
  {
    var rs := [Entry(12, 0, None)];
    assert rs[..0] == [];
    IncrementEmpty(11);
  }

  /** Check-ins on consecutive nights share their padding points. */
  lemma ConsecutiveNights()
    ensures TimeChart([Entry(13, 1, None), Entry(14, 1, None)]).2 == [(11, 0), (12, 1), (13, 1), (14, 0)]
  {
    var rs := [Entry(13, 1, None), Entry(14, 1, None)];
    assert rs[..1] == [Entry(13, 1, None)];
    assert rs[..1][..0] == [];
    IncrementEmpty(12);
    assert SeriesOf(rs[..1], Total) == [(11, 0), (12, 1), (13, 0)];
    IncrementNextNight();
  }

  lemma IncrementNextNight()
    ensures IncrementMapValue([(11, 0), (12, 1), (13, 0)], 13) == [(11, 0), (12, 1), (13, 1), (14, 0)]
  {
    var t: Tally<int> := [(11, 0), (12, 1), (13, 0)];
    assert Keys(t) == [11, 12, 13];
    assert PadZero(t, 12) == t;
    assert t[1..][1..] == [(13, 0)];
    assert Bump(t[1..][1..], 13) == [(13, 1)];
    assert Bump(t[1..], 13) == [(12, 1), (13, 1)];
    var b := Bump(t, 13);
    assert b == [(11, 0), (12, 1), (13, 1)];
    assert Keys(b) == [11, 12, 13];
  }

  /** Two check-ins of one night count twice on the same point. */
  lemma SameNightTwice()
    ensures TimeChart([Entry(13, 1, None), Entry(13, 1, None)]).2 == [(11, 0), (12, 2), (13, 0)]
  {
    var rs := [Entry(13, 1, None), Entry(13, 1, None)];
    assert rs[..1] == [Entry(13, 1, None)];
    assert rs[..1][..0] == [];
    IncrementEmpty(12);
    assert SeriesOf(rs[..1], Total) == [(11, 0), (12, 1), (13, 0)];
    IncrementSameNight();
  }

  lemma IncrementSameNight()
    ensures IncrementMapValue([(11, 0), (12, 1), (13, 0)], 12) == [(11, 0), (12, 2), (13, 0)]
  {
    var t: Tally<int> := [(11, 0), (12, 1), (13, 0)];
    assert Keys(t) == [11, 12, 13];
    assert PadZero(t, 11) == t;
    var b := Bump(t, 12);
    assert b == [(11, 0), (12, 2), (13, 0)] by {
      assert t[1..] == [(12, 1), (13, 0)];
    }
    assert Keys(b) == [11, 12, 13];
  }
}
