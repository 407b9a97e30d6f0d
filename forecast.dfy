/** The forecast tool's data-structure algorithm: group the provider's
    intervals by calendar day (future days only), sort the days, keep the
    first `days` of them, and report each by its first midday interval
    (hour 10 to 14), or its first interval when it has no midday one. */
module Forecast {
  import opened Wrappers
  import opened Preferences
  import opened Provider

  const MinDays := 1
  const MaxDays := 5
  const DefaultDays := 3

  function Min(a: int, b: int): int { if a <= b then a else b }
  function Max(a: int, b: int): int { if a >= b then a else b }

  /** `max(1, min(5, days))` */
  function ClampDays(days: int): (n: nat)
    ensures MinDays <= n <= MaxDays
    ensures MinDays <= days <= MaxDays ==> n == days
    ensures days < MinDays ==> n == MinDays
    ensures days > MaxDays ==> n == MaxDays
  {
    Max(MinDays, Min(MaxDays, days))
  }

  /** What the grouping loop keeps of an interval. */
  datatype Reading = Reading(hour: int, temp: real, description: string)

  /** One reported day; the temperature is always in degrees Celsius. */
  datatype DailyForecast = DailyForecast(date: int, temperature: real, description: string)

  datatype ForecastResult =
    | ForecastOk(cityName: string, days: seq<DailyForecast>)
    | ForecastError(message: string)

  function ToReading(s: Sample): Reading {
    Reading(s.hour, s.temp, s.description)
  }

  predicate IsMidday(hour: int) {
    10 <= hour <= 14
  }

  /*** Grouping by day ***/

  /** The per-day lists the grouping loop has built after the intervals `s`:
      intervals dated today or earlier are skipped; the others are appended,
      in order, to their day's list, which is created on first use. */
  function Bucket(s: seq<Sample>, today: int): (b: map<int, seq<Reading>>)
    ensures forall d :: d in b ==> d > today && |b[d]| > 0
    decreases |s|
  {
    if s == [] then map[]
    else
      var b := Bucket(s[..|s| - 1], today);
      var x := s[|s| - 1];
      if x.date <= today then b
      else b[x.date := (if x.date in b then b[x.date] else []) + [ToReading(x)]]
  }

  /** Reference definition: the readings of the intervals dated `d`, in input order. */
  function OnDate(s: seq<Sample>, d: int): seq<Reading>
    decreases |s|
  {
    if s == [] then []
    else OnDate(s[..|s| - 1], d) + (if s[|s| - 1].date == d then [ToReading(s[|s| - 1])] else [])
  }

  /** Reference definition: the distinct dates strictly after `today` that some interval has. */
  function FutureDates(s: seq<Sample>, today: int): set<int> {
    set i | 0 <= i < |s| && s[i].date > today :: s[i].date
  }

  lemma FutureDatesSnoc(s: seq<Sample>, today: int)
    requires s != []
    ensures FutureDates(s, today) ==
      FutureDates(s[..|s| - 1], today) + (if s[|s| - 1].date > today then {s[|s| - 1].date} else {})
  {
    var init := s[..|s| - 1];
    forall d | d in FutureDates(s, today)
      ensures d in FutureDates(init, today) + (if s[|s| - 1].date > today then {s[|s| - 1].date} else {})
    {
      var i :| 0 <= i < |s| && s[i].date > today && s[i].date == d;
      if i < |s| - 1 {
        assert init[i] == s[i];
      }
    }
    forall d | d in FutureDates(init, today)
      ensures d in FutureDates(s, today)
    {
      var i :| 0 <= i < |init| && init[i].date > today && init[i].date == d;
      assert s[i] == init[i];
    }
  }

  lemma OnDateEmpty(s: seq<Sample>, d: int)
    requires forall i :: 0 <= i < |s| ==> s[i].date != d
    ensures OnDate(s, d) == []
    decreases |s|
  {
    if s != [] {
      OnDateEmpty(s[..|s| - 1], d);
    }
  }

  /** The grouping loop keeps exactly the future dates, and each day's list is
      that day's readings in input order, never empty. */
  lemma {:induction false} BucketIsGrouping(s: seq<Sample>, today: int)
    ensures Bucket(s, today).Keys == FutureDates(s, today)
    ensures forall d :: d in Bucket(s, today) ==>
              Bucket(s, today)[d] == OnDate(s, d) && |Bucket(s, today)[d]| > 0
    decreases |s|
  {
    if s != [] {
      var init := s[..|s| - 1];
      var x := s[|s| - 1];
      BucketIsGrouping(init, today);
      FutureDatesSnoc(s, today);
      if x.date > today && x.date !in Bucket(init, today) {
        assert x.date !in FutureDates(init, today);
        forall i | 0 <= i < |init|
          ensures init[i].date != x.date
        {
          assert init[i].date > today ==> init[i].date in FutureDates(init, today);
        }
        OnDateEmpty(init, x.date);
      }
    }
  }

  /** Lines 190-211: the grouping loop, building the day map in place. */
  method GroupByDay(samples: seq<Sample>, today: int) returns (days: map<int, seq<Reading>>)
    ensures days == Bucket(samples, today)
  {
    days := map[];
    for i := 0 to |samples|
      invariant days == Bucket(samples[..i], today)
    {
      var forecast := samples[i];
      assert samples[..i + 1][..i] == samples[..i];
      if forecast.date <= today {
        continue;
      }
      if forecast.date !in days {
        days := days[forecast.date := []];
      }
      days := days[forecast.date := days[forecast.date] + [ToReading(forecast)]];
    }
    assert samples[..|samples|] == samples;
  }

  /*** Sorting the days ***/

  predicate StrictlyIncreasing(r: seq<int>) {
    forall i, j :: 0 <= i < j < |r| ==> r[i] < r[j]
  }

  lemma NonEmptyHasElement(ks: set<int>)
    requires ks != {}
    ensures exists y :: y in ks
  {
    assert (forall y :: y !in ks) ==> ks == {};
  }

  lemma HasMinimum(ks: set<int>)
    requires ks != {}
    ensures exists m :: m in ks && forall x :: x in ks ==> m <= x
    decreases |ks|
  {
    NonEmptyHasElement(ks);
    var y :| y in ks;
    var rest := ks - {y};
    if rest == {} {
      forall x | x in ks ensures y <= x {
        assert x !in rest;
      }
    } else {
      HasMinimum(rest);
      var m :| m in rest && forall x :: x in rest ==> m <= x;
      var least := if y < m then y else m;
      forall x | x in ks ensures least <= x {
        if x != y { assert x in rest; }
      }
      assert least in ks;
    }
  }

  /** The earliest of a non-empty set of dates. */
  function SetMin(ks: set<int>): (m: int)
    requires ks != {}
    ensures m in ks && forall x :: x in ks ==> m <= x
  {
    HasMinimum(ks);
    var m :| m in ks && forall x :: x in ks ==> m <= x;
    m
  }

  /** `sorted(keys)`: the set's elements, each once, in ascending order. */
  function SortedKeys(ks: set<int>): (r: seq<int>)
    ensures StrictlyIncreasing(r)
    ensures forall x :: x in r <==> x in ks
    ensures |r| == |ks|
    decreases |ks|
  {
    if ks == {} then []
    else
      var m := SetMin(ks);
      var rest := SortedKeys(ks - {m});
      [m] + rest
  }

  /*** Picking each day's representative ***/

  /** Index of the first reading whose hour is in [10, 14]. */
  function FirstMidday(rs: seq<Reading>): (r: Option<nat>)
    ensures r.Some? ==> r.value < |rs| && IsMidday(rs[r.value].hour)
    ensures r.Some? ==> forall j :: 0 <= j < r.value ==> !IsMidday(rs[j].hour)
    ensures r.None? ==> forall j :: 0 <= j < |rs| ==> !IsMidday(rs[j].hour)
  {
    if rs == [] then None
    else if IsMidday(rs[0].hour) then Some(0)
    else
      match FirstMidday(rs[1..])
      case Some(i) => Some(i + 1)
      case None => None
  }

  /** Position `i` holds the first midday reading of `rs`, or `rs` has no
      midday reading and `i` is its first position. */
  ghost predicate FirstMiddayOrFirst(rs: seq<Reading>, i: int)
    requires 0 <= i < |rs|
  {
    || (IsMidday(rs[i].hour) && forall j :: 0 <= j < i ==> !IsMidday(rs[j].hour))
    || (i == 0 && forall j :: 0 <= j < |rs| ==> !IsMidday(rs[j].hour))
  }

  /** The first midday reading, otherwise the first reading, of a day. */
  function MiddayPick(rs: seq<Reading>): (r: Option<Reading>)
    ensures r.Some? <==> |rs| > 0
    ensures r.Some? ==> exists i :: 0 <= i < |rs| && r.value == rs[i] && FirstMiddayOrFirst(rs, i)
  {
    match FirstMidday(rs)
    case Some(i) => Some(rs[i])
    case None => if |rs| > 0 then Some(rs[0]) else None
  }

  /** Lines 223-231: scan for the first midday reading, stopping at it, and
      fall back to the day's first reading. */
  method PickMidday(rs: seq<Reading>) returns (pick: Option<Reading>)
    ensures pick == MiddayPick(rs)
    ensures |rs| == 0 ==> pick.None?
    ensures |rs| > 0 && (exists j :: 0 <= j < |rs| && IsMidday(rs[j].hour)) ==>
              pick.Some? && IsMidday(pick.value.hour)
  {
    pick := None;
    var i := 0;
    while i < |rs|
      invariant 0 <= i <= |rs|
      invariant pick.None?
      invariant forall j :: 0 <= j < i ==> !IsMidday(rs[j].hour)
    {
      if IsMidday(rs[i].hour) {
        pick := Some(rs[i]);
        break;
      }
      i := i + 1;
    }
    if pick.None? && |rs| > 0 {
      pick := Some(rs[0]);
    }
  }

  /*** Building the daily list ***/

  function DayFrom(date: int, r: Reading): DailyForecast {
    DailyForecast(date, r.temp, r.description)
  }

  /** The entries the reporting loop appends for `dates`, in that order; a day
      with no pick (an empty list) is skipped. */
  function DaysFor(b: map<int, seq<Reading>>, dates: seq<int>): (r: seq<DailyForecast>)
    requires forall d :: d in dates ==> d in b
    ensures |r| <= |dates|
    ensures forall k :: 0 <= k < |r| ==> r[k].date in dates
    decreases |dates|
  {
    if dates == [] then []
    else
      var d := dates[|dates| - 1];
      DaysFor(b, dates[..|dates| - 1])
        + match MiddayPick(b[d])
          case Some(r) => [DayFrom(d, r)]
          case None => []
  }

  /** With no empty day list, every date yields exactly its own entry. */
  lemma {:induction false} DaysForEach(b: map<int, seq<Reading>>, dates: seq<int>)
    requires forall d :: d in dates ==> d in b && |b[d]| > 0
    ensures |DaysFor(b, dates)| == |dates|
    ensures forall k :: 0 <= k < |dates| ==>
              DaysFor(b, dates)[k] == DayFrom(dates[k], MiddayPick(b[dates[k]]).value)
    decreases |dates|
  {
    if dates != [] {
      var init, d := dates[..|dates| - 1], dates[|dates| - 1];
      DaysForEach(b, init);
      assert MiddayPick(b[d]).Some?;
      assert DaysFor(b, dates) == DaysFor(b, init) + [DayFrom(d, MiddayPick(b[d]).value)];
      forall k | 0 <= k < |dates|
        ensures DaysFor(b, dates)[k] == DayFrom(dates[k], MiddayPick(b[dates[k]]).value)
      {
        if k < |init| {
          assert dates[k] == init[k];
        }
      }
    }
  }

  /** Lines 218-242: the reporting loop over the chosen dates. */
  method BuildDaily(b: map<int, seq<Reading>>, dates: seq<int>) returns (daily: seq<DailyForecast>)
    requires forall d :: d in dates ==> d in b
    ensures daily == DaysFor(b, dates)
  {
    daily := [];
    for k := 0 to |dates|
      invariant daily == DaysFor(b, dates[..k])
    {
      assert dates[..k + 1][..k] == dates[..k];
      var date := dates[k];
      var midday := PickMidday(b[date]);
      if midday.Some? {
        daily := daily + [DayFrom(date, midday.value)];
      }
    }
    assert dates[..|dates|] == dates;
  }

  /*** The whole forecast ***/

  /** The dates the tool reports: the first `n` of the sorted future dates. */
  function ChosenDates(b: map<int, seq<Reading>>, n: nat): (dates: seq<int>)
    ensures |dates| <= n
    ensures forall d :: d in dates ==> d in b
  {
    var sorted := SortedKeys(b.Keys);
    sorted[..Min(n, |sorted|)]
  }

  /** The daily entries reported for the intervals `samples` and day count `n`:
      at most `n` of them, all for days after today. */
  function Daily(samples: seq<Sample>, today: int, n: nat): (r: seq<DailyForecast>)
    ensures |r| <= n
    ensures forall k :: 0 <= k < |r| ==> r[k].date > today
  {
    var b := Bucket(samples, today);
    DaysFor(b, ChosenDates(b, n))
  }

  /** The tool as a function of its inputs: the city and day-count arguments,
      the session state, the geocoding hit, the forecast endpoint's answer
      and the current local date. An omitted day count (`None`) means
      `DefaultDays`. The stored temperature unit is not consulted. */
  function WeatherForecast(city: string, state: State, days: Option<int>, geo: Option<GeoHit>,
                    resp: ForecastResponse, today: int): (r: ForecastResult)
    ensures geo.None? ==>
      r == ForecastError("City '" + EffectiveCity(city, state) + "' not found.")
    ensures geo.Some? && resp.status != 200 ==>
      r == ForecastError("Weather forecast for '" + EffectiveCity(city, state)
                         + "' is not available. API error: " + ApiMessage(resp))
    ensures r.ForecastOk? ==>
      && geo.Some? && resp.status == 200
      && r.cityName == geo.value.name.GetOr(EffectiveCity(city, state))
      && r.days == Daily(resp.samples, today, ClampDays(days.GetOr(3)))
      && r.days != []
  {
    var effective := EffectiveCity(city, state);
    var n := ClampDays(days.GetOr(DefaultDays));
    if geo.None? then
      ForecastError("City '" + effective + "' not found.")
    else
      var cityName := geo.value.name.GetOr(effective);
      if resp.status == StatusOk then
        var daily := Daily(resp.samples, today, n);
        if daily != [] then ForecastOk(cityName, daily)
        else ForecastError("No forecast data available for upcoming days in " + cityName + ".")
      else
        ForecastError("Weather forecast for '" + effective
                      + "' is not available. API error: " + ApiMessage(resp))
  }

  /*** What the forecast promises ***/

  /** Each chosen date is reported once, by its own representative. */
  lemma DailyEntries(samples: seq<Sample>, today: int, n: nat)
    ensures var dates := ChosenDates(Bucket(samples, today), n);
      && |Daily(samples, today, n)| == |dates|
      && forall k :: 0 <= k < |dates| ==>
           && MiddayPick(OnDate(samples, dates[k])).Some?
           && Daily(samples, today, n)[k]
                == DayFrom(dates[k], MiddayPick(OnDate(samples, dates[k])).value)
  {
    var b := Bucket(samples, today);
    BucketIsGrouping(samples, today);
    DaysForEach(b, ChosenDates(b, n));
  }

  /** The chosen dates are the first min(n, number of keys) keys in ascending
      order; a key left out is later than every one of the n chosen. */
  lemma ChosenDatesEarliest(b: map<int, seq<Reading>>, n: nat)
    ensures |ChosenDates(b, n)| == Min(n, |b.Keys|)
    ensures StrictlyIncreasing(ChosenDates(b, n))
    ensures forall d :: d in b && d !in ChosenDates(b, n) ==>
              |ChosenDates(b, n)| == n && forall k :: 0 <= k < n ==> ChosenDates(b, n)[k] < d
  {
    var sorted := SortedKeys(b.Keys);
    var dates := ChosenDates(b, n);
    var m := Min(n, |sorted|);
    assert dates == sorted[..m];
    forall i, j | 0 <= i < j < |dates|
      ensures dates[i] < dates[j]
    {
      assert dates[i] == sorted[i] && dates[j] == sorted[j];
    }
    forall d | d in b && d !in dates
      ensures |dates| == n && forall k :: 0 <= k < n ==> dates[k] < d
    {
      assert d in sorted;
      var j :| 0 <= j < |sorted| && sorted[j] == d;
      assert j >= m;
      assert m == n;
      forall k | 0 <= k < n
        ensures dates[k] < d
      {
        assert dates[k] == sorted[k];
      }
    }
  }

  /** The reported days carry the chosen dates, one each, in order. */
  lemma DailyDates(samples: seq<Sample>, today: int, n: nat)
    ensures |Daily(samples, today, n)| == |ChosenDates(Bucket(samples, today), n)|
    ensures forall k :: 0 <= k < |Daily(samples, today, n)| ==>
              Daily(samples, today, n)[k].date == ChosenDates(Bucket(samples, today), n)[k]
  {
    var b := Bucket(samples, today);
    BucketIsGrouping(samples, today);
    DaysForEach(b, ChosenDates(b, n));
  }

  /** Reported days are future dates of the input, strictly ascending (so
      distinct), and there are min(n, number of future dates) of them. */
  lemma DailyDatesAscendingFuture(samples: seq<Sample>, today: int, n: nat)
    ensures |Daily(samples, today, n)| == Min(n, |FutureDates(samples, today)|)
    ensures forall k :: 0 <= k < |Daily(samples, today, n)| ==>
              Daily(samples, today, n)[k].date in FutureDates(samples, today)
              && Daily(samples, today, n)[k].date > today
    ensures forall k, l :: 0 <= k < l < |Daily(samples, today, n)| ==>
              Daily(samples, today, n)[k].date < Daily(samples, today, n)[l].date
  {
    var b := Bucket(samples, today);
    var days := Daily(samples, today, n);
    var dates := ChosenDates(b, n);
    var future := FutureDates(samples, today);
    DailyDates(samples, today, n);
    assert b.Keys == future by {
      BucketIsGrouping(samples, today);
    }
    assert |dates| == Min(n, |b.Keys|) && StrictlyIncreasing(dates) by {
      ChosenDatesEarliest(b, n);
    }
    forall k | 0 <= k < |days|
      ensures days[k].date in future && days[k].date > today
    {
      assert days[k].date == dates[k] && dates[k] in b;
    }
    forall k, l | 0 <= k < l < |days|
      ensures days[k].date < days[l].date
    {
      assert days[k].date == dates[k] && days[l].date == dates[l];
    }
  }

  /** Each reported day is represented by the first interval of that date,
      in input order, whose hour is in [10, 14], and by the date's first
      interval when none is. */
  lemma DailyRepresentative(samples: seq<Sample>, today: int, n: nat, k: nat)
    requires k < |Daily(samples, today, n)|
    ensures var day := Daily(samples, today, n)[k];
      exists i :: 0 <= i < |OnDate(samples, day.date)|
        && day == DayFrom(day.date, OnDate(samples, day.date)[i])
        && FirstMiddayOrFirst(OnDate(samples, day.date), i)
  {
    DailyEntries(samples, today, n);
    var date := ChosenDates(Bucket(samples, today), n)[k];
    var rs := OnDate(samples, date);
    var pick := MiddayPick(rs);
    assert Daily(samples, today, n)[k] == DayFrom(date, pick.value);
    var i :| 0 <= i < |rs| && pick.value == rs[i] && FirstMiddayOrFirst(rs, i);
    assert Daily(samples, today, n)[k] == DayFrom(date, rs[i]);
  }

  /** No later day is reported in place of an earlier one: a future date left
      out means all `n` slots went to earlier dates. */
  lemma DailyEarliestFirst(samples: seq<Sample>, today: int, n: nat, d: int)
    requires d in FutureDates(samples, today)
    requires forall k :: 0 <= k < |Daily(samples, today, n)| ==> Daily(samples, today, n)[k].date != d
    ensures |Daily(samples, today, n)| == n
    ensures forall k :: 0 <= k < n ==> Daily(samples, today, n)[k].date < d
  {
    var b := Bucket(samples, today);
    var dates := ChosenDates(b, n);
    BucketIsGrouping(samples, today);
    DailyDates(samples, today, n);
    ChosenDatesEarliest(b, n);
    assert d !in dates by {
      forall k | 0 <= k < |dates| ensures dates[k] != d {
        assert Daily(samples, today, n)[k].date == dates[k];
      }
    }
  }

  /** With a found city and a 200 answer, the forecast fails exactly when no
      interval lies after today, and then says so. */
  lemma ForecastNoData(city: string, state: State, days: Option<int>, geo: Option<GeoHit>,
                       resp: ForecastResponse, today: int)
    requires geo.Some? && resp.status == 200
    ensures (WeatherForecast(city, state, days, geo, resp, today).ForecastError?
             <==> forall i :: 0 <= i < |resp.samples| ==> resp.samples[i].date <= today)
    ensures WeatherForecast(city, state, days, geo, resp, today).ForecastError? ==>
              WeatherForecast(city, state, days, geo, resp, today).message
                == "No forecast data available for upcoming days in "
                   + geo.value.name.GetOr(EffectiveCity(city, state)) + "."
  {
    var s := resp.samples;
    DailyDatesAscendingFuture(s, today, ClampDays(days.GetOr(DefaultDays)));
    if exists i :: 0 <= i < |s| && s[i].date > today {
      var i :| 0 <= i < |s| && s[i].date > today;
      assert s[i].date in FutureDates(s, today);
    } else {
      assert FutureDates(s, today) == {};
    }
  }

  /** The stored temperature unit has no effect on the forecast. */
  lemma ForecastIgnoresUnit(city: string, state: State, unit: string, days: Option<int>,
                            geo: Option<GeoHit>, resp: ForecastResponse, today: int)
    ensures WeatherForecast(city, state[UnitKey := unit], days, geo, resp, today)
            == WeatherForecast(city, state, days, geo, resp, today)
  {
    assert PreferredCity(state[UnitKey := unit]) == PreferredCity(state);
  }
}
