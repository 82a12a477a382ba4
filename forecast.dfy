/** The forecast reducers of main.py: the 3-day and extended outlooks, the 24-hour
    window of the line graph, and the per-date summary the event page looks up.
    Each works on the samples the forecast service returns, in their order. */
module Forecast {
  import opened Wrappers
  import opened Filtering

  /** One 3-hour forecast sample. `date` is the calendar-date part of `dt_txt`,
      `weekday` its day name and `time` the whole of `dt_txt` as an integer number of
      seconds; temperatures are already rounded. */
  datatype Sample = Sample(
    date: string,
    weekday: string,
    time: int,
    temp: int,
    tempMax: int,
    tempMin: int,
    rain3h: Option<real>,
    windSpeed: real,
    humidity: int,
    description: string)

  /** `item.get("rain", {}).get("3h", 0)`. */
  function Rain(s: Sample): real {
    s.rain3h.GetOr(0.0)
  }

  // ASCII case mapping, as `str.lower` and `str.capitalize` do on ASCII text.

  function LowerChar(c: char): char {
    if 'A' <= c <= 'Z' then (c as int + 32) as char else c
  }

  function UpperChar(c: char): char {
    if 'a' <= c <= 'z' then (c as int - 32) as char else c
  }

  function Lower(s: string): string {
    seq(|s|, i requires 0 <= i < |s| => LowerChar(s[i]))
  }

  /** `s.capitalize()`: first character upper case, the rest lower case. */
  function Capitalize(s: string): string {
    if s == [] then [] else [UpperChar(s[0])] + Lower(s[1..])
  }

  /** The outlook looks its icon up under `weather_desc.lower()`, where `weather_desc`
      is the capitalized description: that is the lower-cased description itself. */
  lemma LowerCapitalize(s: string)
    ensures Lower(Capitalize(s)) == Lower(s)
  {
    if s != [] {
      var r := Capitalize(s);
      assert Lower(r)[0] == LowerChar(UpperChar(s[0])) == LowerChar(s[0]);
      forall i | 0 < i < |s| ensures Lower(r)[i] == Lower(s)[i] {
        assert r[i] == LowerChar(s[i]);
      }
    }
  }

  const PartlySunny: string := "\U{1F324}\U{FE0F}"
  const Cloudy: string := "\U{1F325}\U{FE0F}"
  const CheckDetails: string := "Check weather details"

  /** The `weather_icons` table: description to (icon, recommendation). */
  const WeatherIcons: map<string, (string, string)> := map[
    "clear sky" := ("\U{2600}\U{FE0F}", "Perfect day for outdoor events! Enjoy the sunshine."),
    "few clouds" := ("\U{1F324}\U{FE0F}", "Great weather for being outside! Slightly cloudy but enjoyable."),
    "scattered clouds" := ("\U{26C5}", "Weather is suitable for events. Expect some clouds but mostly clear."),
    "overcast clouds" := ("\U{2601}\U{FE0F}", "Event-friendly, but keep an eye out for possible rain."),
    "rain" := ("\U{1F327}\U{FE0F}", "Not ideal for outdoor events. Consider indoor plans or prepare for rain."),
    "thunderstorm" := ("\U{26C8}\U{FE0F}", "Avoid outdoor events due to thunderstorms. Stay safe indoors."),
    "broken clouds" := ("\U{26C5}", "Partly cloudy with some breaks of sunshine. Great for outdoor plans!")
  ]

  // The 3-day and extended outlooks.

  /** The icon of a 3-day outlook entry: looked up under the lower-cased description,
      with a partly-sunny icon for descriptions the table lacks. */
  function OutlookIcon(weather: string): string {
    var key := Lower(weather);
    if key in WeatherIcons then WeatherIcons[key].0 else PartlySunny
  }

  datatype ThreeDayEntry = ThreeDayEntry(
    day: string, date: string, maxTemp: int, minTemp: int, rain: real, weather: string, icon: string)

  /** The record the 3-day outlook builds from one sample. */
  function ThreeDayEntryOf(s: Sample): ThreeDayEntry {
    var weather := Capitalize(s.description);
    ThreeDayEntry(s.weekday, s.date, s.tempMax, s.tempMin, Rain(s), weather, OutlookIcon(weather))
  }

  /** The 3-day icon depends on the lower-cased description only: a description the
      table knows in any letter case gets its icon, any other the partly-sunny one. */
  lemma ThreeDayIcon(s: Sample)
    ensures Lower(s.description) in WeatherIcons ==> ThreeDayEntryOf(s).icon == WeatherIcons[Lower(s.description)].0
    ensures Lower(s.description) !in WeatherIcons ==> ThreeDayEntryOf(s).icon == PartlySunny
  {
    LowerCapitalize(s.description);
  }

  datatype LongTermEntry = LongTermEntry(
    date: string, maxTemp: int, minTemp: int, rain: real, windSpeed: real, humidity: int, weather: string)

  /** The record the extended outlook builds from one sample. */
  function LongTermEntryOf(s: Sample): LongTermEntry {
    LongTermEntry(s.date, s.tempMax, s.tempMin, Rain(s), s.windSpeed, s.humidity, Capitalize(s.description))
  }

  /** Some sample has date `d`. */
  predicate Covers(s: seq<Sample>, d: string) {
    exists j :: 0 <= j < |s| && s[j].date == d
  }

  /** The position of the first sample with date `d`. */
  function FirstIndexOf(s: seq<Sample>, d: string): (j: nat)
    requires Covers(s, d)
    ensures j < |s| && s[j].date == d
    ensures forall k :: 0 <= k < j ==> s[k].date != d
  {
    if s[0].date == d then 0
    else
      assert Covers(s[1..], d) by {
        var j :| 0 <= j < |s| && s[j].date == d;
        assert s[1..][j - 1].date == d;
      }
      1 + FirstIndexOf(s[1..], d)
  }

  lemma FirstIndexUnique(s: seq<Sample>, d: string, j: nat)
    requires j < |s| && s[j].date == d && forall k :: 0 <= k < j ==> s[k].date != d
    ensures FirstIndexOf(s, d) == j
  {
  }

  /** The first sample of every date, in order of first occurrence. */
  function FirstPerDate(s: seq<Sample>): seq<Sample> {
    if s == [] then []
    else
      var seen := FirstPerDate(s[..|s| - 1]);
      if Covers(seen, s[|s| - 1].date) then seen else seen + [s[|s| - 1]]
  }

  /** The first `n` elements, or all of them when there are fewer. */
  function Take<T>(s: seq<T>, n: nat): seq<T> {
    if |s| <= n then s else s[..n]
  }

  /** What an outlook capped at `cap` dates shows. */
  function Outlook(s: seq<Sample>, cap: nat): seq<Sample> {
    Take(FirstPerDate(s), cap)
  }

  /** The first samples cover exactly the dates of the samples. */
  lemma {:induction false} FirstPerDateCovers(s: seq<Sample>, d: string)
    ensures Covers(FirstPerDate(s), d) <==> Covers(s, d)
  {
    if s != [] {
      var n := |s| - 1;
      var front := s[..n];
      FirstPerDateCovers(front, d);
      FirstPerDateCovers(front, s[n].date);
      var seen := FirstPerDate(front);
      var all := FirstPerDate(s);
      assert all == seen || all == seen + [s[n]];
      if Covers(seen, d) {
        var j :| 0 <= j < |seen| && seen[j].date == d;
        assert all[j].date == d;
      }
      if Covers(all, d) && !Covers(seen, d) {
        var j :| 0 <= j < |all| && all[j].date == d;
        assert s[n].date == d;
      }
      if Covers(s, d) {
        var j :| 0 <= j < |s| && s[j].date == d;
        if j < n {
          assert front[j].date == d;
        } else {
          assert s[n].date == d;
        }
      }
      if s[n].date == d && !Covers(seen, d) {
        assert all == seen + [s[n]];
        assert all[|seen|].date == d;
      }
      if Covers(front, d) {
        var j :| 0 <= j < n && front[j].date == d;
        assert s[j].date == d;
      }
    }
  }

  /** No date appears twice. */
  lemma {:induction false} FirstPerDateDistinct(s: seq<Sample>)
    ensures forall k, l :: 0 <= k < l < |FirstPerDate(s)| ==> FirstPerDate(s)[k].date != FirstPerDate(s)[l].date
  {
    if s != [] {
      var n := |s| - 1;
      FirstPerDateDistinct(s[..n]);
    }
  }

  /** Each entry is the first sample of its date, and the entries come in the order
      in which their dates first occur. */
  lemma {:induction false} FirstPerDateFromFirstSamples(s: seq<Sample>)
    ensures forall k :: 0 <= k < |FirstPerDate(s)| ==>
      Covers(s, FirstPerDate(s)[k].date) && FirstPerDate(s)[k] == s[FirstIndexOf(s, FirstPerDate(s)[k].date)]
    ensures forall k, l :: 0 <= k < l < |FirstPerDate(s)| ==>
      Covers(s, FirstPerDate(s)[k].date) && Covers(s, FirstPerDate(s)[l].date) &&
      FirstIndexOf(s, FirstPerDate(s)[k].date) < FirstIndexOf(s, FirstPerDate(s)[l].date)
  {
    if s != [] {
      var n := |s| - 1;
      var front := s[..n];
      FirstPerDateFromFirstSamples(front);
      var seen := FirstPerDate(front);
      var all := FirstPerDate(s);
      forall k | 0 <= k < |seen|
        ensures Covers(s, seen[k].date) && FirstIndexOf(s, seen[k].date) == FirstIndexOf(front, seen[k].date)
        ensures s[FirstIndexOf(s, seen[k].date)] == front[FirstIndexOf(front, seen[k].date)]
      {
        FirstIndexExtends(s, n, seen[k].date);
      }
      if Covers(seen, s[n].date) {
        assert all == seen;
      } else {
        FirstPerDateCovers(front, s[n].date);
        FirstIndexUnique(s, s[n].date, n);
        assert all == seen + [s[n]];
      }
    }
  }

  /** A date of a prefix has the same first position in the whole sequence. */
  lemma FirstIndexExtends(s: seq<Sample>, n: nat, d: string)
    requires n <= |s| && Covers(s[..n], d)
    ensures Covers(s, d) && FirstIndexOf(s, d) == FirstIndexOf(s[..n], d)
    ensures s[FirstIndexOf(s, d)] == s[..n][FirstIndexOf(s[..n], d)]
  {
    var j := FirstIndexOf(s[..n], d);
    assert s[j] == s[..n][j];
    FirstIndexUnique(s, d, j);
  }

  /** The first samples of a prefix are a prefix of the first samples. */
  lemma {:induction false} FirstPerDatePrefix(s: seq<Sample>, i: nat)
    requires i <= |s|
    ensures FirstPerDate(s[..i]) <= FirstPerDate(s)
  {
    if i < |s| {
      var n := |s| - 1;
      assert s[..n][..i] == s[..i];
      FirstPerDatePrefix(s[..n], i);
    } else {
      assert s[..i] == s;
    }
  }

  /** One more sample either repeats a date already shown or adds itself. */
  lemma FirstPerDateStep(s: seq<Sample>, i: nat)
    requires i < |s|
    ensures FirstPerDate(s[..i + 1]) ==
      if Covers(FirstPerDate(s[..i]), s[i].date) then FirstPerDate(s[..i]) else FirstPerDate(s[..i]) + [s[i]]
  {
    assert s[..i + 1][..i] == s[..i];
  }

  /** An outlook has at most `cap` entries. */
  lemma OutlookBounded(s: seq<Sample>, cap: nat)
    ensures |Outlook(s, cap)| <= cap
  {
  }

  /** No date appears twice in an outlook. */
  lemma OutlookDistinct(s: seq<Sample>, cap: nat)
    ensures forall k, l :: 0 <= k < l < |Outlook(s, cap)| ==> Outlook(s, cap)[k].date != Outlook(s, cap)[l].date
  {
    FirstPerDateDistinct(s);
  }

  /** Each outlook entry is built from the first sample of its date, and the entries
      follow the order of first occurrence. */
  lemma OutlookFirstSamples(s: seq<Sample>, cap: nat)
    ensures forall k :: 0 <= k < |Outlook(s, cap)| ==>
      Covers(s, Outlook(s, cap)[k].date) && Outlook(s, cap)[k] == s[FirstIndexOf(s, Outlook(s, cap)[k].date)]
    ensures forall k, l :: 0 <= k < l < |Outlook(s, cap)| ==>
      Covers(s, Outlook(s, cap)[k].date) && Covers(s, Outlook(s, cap)[l].date) &&
      FirstIndexOf(s, Outlook(s, cap)[k].date) < FirstIndexOf(s, Outlook(s, cap)[l].date)
  {
    FirstPerDateFromFirstSamples(s);
  }

  /** An outlook that is not full shows every date of the samples. */
  lemma OutlookComplete(s: seq<Sample>, cap: nat, d: string)
    requires |Outlook(s, cap)| < cap && Covers(s, d)
    ensures Covers(Outlook(s, cap), d)
  {
    FirstPerDateCovers(s, d);
  }

  /** First sample wins: a later sample of the same date changes nothing, so the
      outlook does not take the largest maximum or the smallest minimum of a date. */
  lemma OutlookKeepsFirstSample(a: Sample, b: Sample, cap: nat)
    requires a.date == b.date && cap >= 1
    ensures Outlook([a, b], cap) == [a]
  {
    var s := [a, b];
    assert s[..1] == [a];
    assert s[..1][..0] == [];
    assert FirstPerDate(s[..1]) == [a];
    assert [a][0].date == b.date;
    assert Covers(FirstPerDate(s[..1]), s[1].date);
    assert FirstPerDate(s) == [a];
  }

  /** The cap is reached once the outlook under construction has `cap` entries. */
  lemma OutlookAt(s: seq<Sample>, i: nat, cap: nat)
    requires i <= |s| && |FirstPerDate(s[..i])| == cap
    ensures Outlook(s, cap) == FirstPerDate(s[..i])
  {
    FirstPerDatePrefix(s, i);
  }

  /** `any(forecast["Date"] == date for forecast in ...)`: some entry built so far
      has date `d`. */
  predicate Listed<E>(days: seq<E>, dateOf: E -> string, d: string) {
    exists k :: 0 <= k < |days| && dateOf(days[k]) == d
  }

  function ThreeDayDate(e: ThreeDayEntry): string { e.date }
  function LongTermDate(e: LongTermEntry): string { e.date }

  /** One sample of an outlook loop: a date already listed changes nothing, a new
      date appends the sample's entry. */
  lemma OutlookStep<E>(samples: seq<Sample>, i: nat, seen: seq<Sample>, days: seq<E>,
                       entryOf: Sample -> E, dateOf: E -> string)
    requires i < |samples| && seen == FirstPerDate(samples[..i]) && days == MapSeq(seen, entryOf)
    requires forall s :: dateOf(entryOf(s)) == s.date
    ensures Listed(days, dateOf, samples[i].date) ==> FirstPerDate(samples[..i + 1]) == seen
    ensures !Listed(days, dateOf, samples[i].date) ==>
      FirstPerDate(samples[..i + 1]) == seen + [samples[i]] &&
      days + [entryOf(samples[i])] == MapSeq(seen + [samples[i]], entryOf)
  {
    FirstPerDateStep(samples, i);
    MapSeqSnoc(seen, samples[i], entryOf);
    assert forall k :: 0 <= k < |days| ==> dateOf(days[k]) == seen[k].date;
  }

  /** `display_three_day_outlook`: keep the first sample of each new date and stop at
      three dates. */
  method ThreeDayOutlook(samples: seq<Sample>) returns (days: seq<ThreeDayEntry>)
    ensures days == MapSeq(Outlook(samples, 3), ThreeDayEntryOf)
  {
    days := [];
    ghost var seen: seq<Sample> := [];
    for i := 0 to |samples|
      invariant seen == FirstPerDate(samples[..i])
      invariant |seen| < 3 && days == MapSeq(seen, ThreeDayEntryOf)
    {
      var item := samples[i];
      OutlookStep(samples, i, seen, days, ThreeDayEntryOf, ThreeDayDate);
      if !Listed(days, ThreeDayDate, item.date) {
        days := days + [ThreeDayEntryOf(item)];
        seen := seen + [item];
      }
      if |days| == 3 {
        OutlookAt(samples, i + 1, 3);
        break;
      }
    }
    assert samples[..|samples|] == samples;
  }

  /** `display_long_term_outlook`: the same reduction with a cap of fourteen dates. */
  method LongTermOutlook(samples: seq<Sample>) returns (days: seq<LongTermEntry>)
    ensures days == MapSeq(Outlook(samples, 14), LongTermEntryOf)
  {
    days := [];
    ghost var seen: seq<Sample> := [];
    for i := 0 to |samples|
      invariant seen == FirstPerDate(samples[..i])
      invariant |seen| < 14 && days == MapSeq(seen, LongTermEntryOf)
    {
      var item := samples[i];
      OutlookStep(samples, i, seen, days, LongTermEntryOf, LongTermDate);
      if !Listed(days, LongTermDate, item.date) {
        days := days + [LongTermEntryOf(item)];
        seen := seen + [item];
      }
      if |days| == 14 {
        OutlookAt(samples, i + 1, 14);
        break;
      }
    }
    assert samples[..|samples|] == samples;
  }

  // The 24-hour line graph.

  const DaySeconds: int := 86400

  datatype HourlyPoint = HourlyPoint(time: int, temp: int, rain: real)

  function PointOf(s: Sample): HourlyPoint {
    HourlyPoint(s.time, s.temp, Rain(s))
  }

  /** `current_time <= datetime_obj <= current_time + timedelta(hours=24)`. */
  function InWindow(now: int): Sample -> bool {
    (s: Sample) => now <= s.time <= now + DaySeconds
  }

  /** The samples the line graph plots, in their order. */
  function Window(samples: seq<Sample>, now: int): seq<Sample> {
    Keep(samples, InWindow(now))
  }

  /** `display_forecast_line_graph`: one point per sample of the next 24 hours. */
  method HourlyForecast(samples: seq<Sample>, now: int) returns (points: seq<HourlyPoint>)
    ensures |points| == |Window(samples, now)|
    ensures forall k :: 0 <= k < |points| ==> points[k] == PointOf(Window(samples, now)[k])
  {
    points := [];
    for i := 0 to |samples|
      invariant |points| == |Window(samples[..i], now)|
      invariant forall k :: 0 <= k < |points| ==> points[k] == PointOf(Window(samples[..i], now)[k])
    {
      var item := samples[i];
      assert samples[..i + 1][..i] == samples[..i];
      if now <= item.time <= now + DaySeconds {
        points := points + [PointOf(item)];
      }
    }
    assert samples[..|samples|] == samples;
  }

  /** A sample is plotted exactly when it lies within 24 hours from now, both ends
      included. */
  lemma WindowIff(samples: seq<Sample>, now: int, s: Sample)
    ensures s in Window(samples, now) <==> s in samples && now <= s.time <= now + DaySeconds
  {
    KeepMembership(samples, InWindow(now), s);
  }

  /** The plotted samples keep their order: they are the samples at increasing
      positions, and every sample of the window is among them. */
  lemma WindowIsOrderedSelection(samples: seq<Sample>, now: int)
    ensures exists idx: seq<nat> ::
      |idx| == |Window(samples, now)| &&
      (forall k :: 0 <= k < |idx| ==> idx[k] < |samples| && Window(samples, now)[k] == samples[idx[k]]) &&
      (forall k, l :: 0 <= k < l < |idx| ==> idx[k] < idx[l]) &&
      (forall i :: 0 <= i < |samples| ==> (now <= samples[i].time <= now + DaySeconds <==> i in idx))
  {
    var idx := KeptPositions(samples, InWindow(now));
    KeptPositionsSpec(samples, InWindow(now));
    assert forall i :: 0 <= i < |samples| ==> (InWindow(now)(samples[i]) <==> now <= samples[i].time <= now + DaySeconds);
  }

  /** A sample 34 hours ahead is not plotted; one exactly 24 hours ahead is. */
  lemma WindowEdges(now: int, a: Sample, b: Sample)
    requires a.time == now + DaySeconds && b.time == now + 34 * 3600
    ensures Window([a, b], now) == [a]
  {
    var s := [a, b];
    assert s[..1] == [a] && s[..1][..0] == [];
    assert InWindow(now)(a) && !InWindow(now)(b);
    assert Window(s[..1], now) == [a];
  }

  // The per-date summary used by the event listing.

  datatype DayWeather = DayWeather(high: int, low: int, weather: string, icon: string, recommendation: string)

  /** `weather_icons.get(weather, "🌥️")[0]`: for a description the table lacks this
      indexes the default string, whose first character is the cloud alone. */
  function DayIcon(weather: string): string {
    if weather in WeatherIcons then WeatherIcons[weather].0 else [Cloudy[0]]
  }

  /** `weather_icons.get(weather, ("🌥️", "Check weather details"))[1]`. */
  function DayRecommendation(weather: string): string {
    if weather in WeatherIcons then WeatherIcons[weather].1 else CheckDetails
  }

  function Max(a: int, b: int): int { if a >= b then a else b }
  function Min(a: int, b: int): int { if a <= b then a else b }

  /** `daily` summarises `samples`: one entry per date; its high and low are the largest
      and smallest temperature of that date's samples; its description, icon and
      recommendation come from the date's first sample. */
  ghost predicate DailyOf(samples: seq<Sample>, daily: map<string, DayWeather>) {
    DailyKeys(samples, daily) && DailyBounds(samples, daily) && DailyHighs(samples, daily) &&
    DailyLows(samples, daily) && DailyFirsts(samples, daily)
  }

  ghost predicate DailyKeys(samples: seq<Sample>, daily: map<string, DayWeather>) {
    forall d :: d in daily <==> Covers(samples, d)
  }

  ghost predicate DailyBounds(samples: seq<Sample>, daily: map<string, DayWeather>) {
    forall j :: 0 <= j < |samples| ==>
      samples[j].date in daily && daily[samples[j].date].low <= samples[j].temp <= daily[samples[j].date].high
  }

  ghost predicate DailyHighs(samples: seq<Sample>, daily: map<string, DayWeather>) {
    forall d :: d in daily ==> exists j :: 0 <= j < |samples| && samples[j].date == d && samples[j].temp == daily[d].high
  }

  ghost predicate DailyLows(samples: seq<Sample>, daily: map<string, DayWeather>) {
    forall d :: d in daily ==> exists j :: 0 <= j < |samples| && samples[j].date == d && samples[j].temp == daily[d].low
  }

  ghost predicate DailyFirsts(samples: seq<Sample>, daily: map<string, DayWeather>) {
    forall d :: d in daily ==> Covers(samples, d) && FromFirst(samples[FirstIndexOf(samples, d)], daily[d])
  }

  predicate FromFirst(s: Sample, w: DayWeather) {
    w.weather == s.description && w.icon == DayIcon(s.description) && w.recommendation == DayRecommendation(s.description)
  }

  /** The loop that builds `daily_forecast` from the forecast samples. */
  method DailyForecast(samples: seq<Sample>) returns (daily: map<string, DayWeather>)
    ensures DailyOf(samples, daily)
  {
    daily := map[];
    for i := 0 to |samples|
      invariant DailyOf(samples[..i], daily)
    {
      var item := samples[i];
      assert samples[..i + 1] == samples[..i] + [item];
      var entry;
      if item.date !in daily {
        var description := item.description;
        entry := DayWeather(item.temp, item.temp, description, DayIcon(description), DayRecommendation(description));
      } else {
        entry := daily[item.date];
        entry := entry.(high := Max(entry.high, item.temp), low := Min(entry.low, item.temp));
      }
      DailyStep(samples[..i], daily, item, entry);
      daily := daily[item.date := entry];
    }
    assert samples[..|samples|] == samples;
  }

  /** One sample folded into the summary keeps it a summary of the longer sequence. */
  lemma DailyStep(before: seq<Sample>, daily: map<string, DayWeather>, item: Sample, w: DayWeather)
    requires DailyOf(before, daily)
    requires item.date !in daily ==> w == DayWeather(item.temp, item.temp, item.description,
      DayIcon(item.description), DayRecommendation(item.description))
    requires item.date in daily ==> w == daily[item.date].(
      high := Max(daily[item.date].high, item.temp), low := Min(daily[item.date].low, item.temp))
    ensures DailyOf(before + [item], daily[item.date := w])
  {
    KeysStep(before, daily, item, w);
    BoundsStep(before, daily, item, w);
    HighsStep(before, daily, item, w);
    LowsStep(before, daily, item, w);
    FirstsStep(before, daily, item, w);
  }

  lemma KeysStep(before: seq<Sample>, daily: map<string, DayWeather>, item: Sample, w: DayWeather)
    requires DailyKeys(before, daily)
    ensures DailyKeys(before + [item], daily[item.date := w])
  {
    var after := before + [item];
    forall d ensures d in daily[item.date := w] <==> Covers(after, d) {
      if Covers(before, d) {
        var j :| 0 <= j < |before| && before[j].date == d;
        assert after[j].date == d;
      }
      if Covers(after, d) && d != item.date {
        var j :| 0 <= j < |after| && after[j].date == d;
        assert j < |before| && before[j].date == d;
      }
      if d == item.date {
        assert after[|before|].date == d;
      }
    }
  }

  lemma BoundsStep(before: seq<Sample>, daily: map<string, DayWeather>, item: Sample, w: DayWeather)
    requires DailyBounds(before, daily)
    requires w.low <= item.temp <= w.high
    requires item.date in daily ==> w.low <= daily[item.date].low && daily[item.date].high <= w.high
    ensures DailyBounds(before + [item], daily[item.date := w])
  {
    var after := before + [item];
    forall j | 0 <= j < |after|
      ensures after[j].date in daily[item.date := w]
      ensures daily[item.date := w][after[j].date].low <= after[j].temp <= daily[item.date := w][after[j].date].high
    {
      if j < |before| {
        assert after[j] == before[j];
      }
    }
  }

  lemma HighsStep(before: seq<Sample>, daily: map<string, DayWeather>, item: Sample, w: DayWeather)
    requires DailyHighs(before, daily)
    requires w.high == item.temp || (item.date in daily && w.high == daily[item.date].high)
    ensures DailyHighs(before + [item], daily[item.date := w])
  {
    var after := before + [item];
    var daily' := daily[item.date := w];
    forall d | d in daily'
      ensures exists j :: 0 <= j < |after| && after[j].date == d && after[j].temp == daily'[d].high
    {
      if d == item.date && w.high == item.temp {
        assert after[|before|].temp == daily'[d].high;
      } else {
        var j :| 0 <= j < |before| && before[j].date == d && before[j].temp == daily[d].high;
        assert after[j].temp == daily'[d].high;
      }
    }
  }

  lemma LowsStep(before: seq<Sample>, daily: map<string, DayWeather>, item: Sample, w: DayWeather)
    requires DailyLows(before, daily)
    requires w.low == item.temp || (item.date in daily && w.low == daily[item.date].low)
    ensures DailyLows(before + [item], daily[item.date := w])
  {
    var after := before + [item];
    var daily' := daily[item.date := w];
    forall d | d in daily'
      ensures exists j :: 0 <= j < |after| && after[j].date == d && after[j].temp == daily'[d].low
    {
      if d == item.date && w.low == item.temp {
        assert after[|before|].temp == daily'[d].low;
      } else {
        var j :| 0 <= j < |before| && before[j].date == d && before[j].temp == daily[d].low;
        assert after[j].temp == daily'[d].low;
      }
    }
  }

  lemma FirstsStep(before: seq<Sample>, daily: map<string, DayWeather>, item: Sample, w: DayWeather)
    requires DailyKeys(before, daily) && DailyFirsts(before, daily)
    requires item.date !in daily ==> FromFirst(item, w)
    requires item.date in daily ==> FromFirst(before[FirstIndexOf(before, item.date)], w)
    ensures DailyFirsts(before + [item], daily[item.date := w])
  {
    var after := before + [item];
    var daily' := daily[item.date := w];
    forall d | d in daily'
      ensures Covers(after, d) && FromFirst(after[FirstIndexOf(after, d)], daily'[d])
    {
      if d in daily {
        var j := FirstIndexOf(before, d);
        assert after[j] == before[j];
        FirstIndexUnique(after, d, j);
      } else {
        assert after[|before|] == item;
        assert !Covers(before, d);
        FirstIndexUnique(after, d, |before|);
      }
    }
  }

  /** A summarised day's low never exceeds its high. */
  lemma DailyLowNotAboveHigh(samples: seq<Sample>, daily: map<string, DayWeather>, d: string)
    requires DailyOf(samples, daily) && d in daily
    ensures daily[d].low <= daily[d].high
  {
    var j :| 0 <= j < |samples| && samples[j].date == d && samples[j].temp == daily[d].high;
  }

  /** What an event dated `date` shows: the icon and recommendation of its day, or a
      cloud and "Check weather details" when the forecast does not reach that day. */
  function EventWeather(daily: map<string, DayWeather>, date: string): (string, string) {
    if date in daily then (daily[date].icon, daily[date].recommendation) else (Cloudy, CheckDetails)
  }

  /** The event lookup in terms of the forecast samples: the first sample of the
      event's date decides, and a date the forecast lacks gets the defaults. */
  lemma EventWeatherOfSamples(samples: seq<Sample>, daily: map<string, DayWeather>, date: string)
    requires DailyOf(samples, daily)
    ensures Covers(samples, date) ==>
      EventWeather(daily, date) ==
        (DayIcon(samples[FirstIndexOf(samples, date)].description),
         DayRecommendation(samples[FirstIndexOf(samples, date)].description))
    ensures !Covers(samples, date) ==> EventWeather(daily, date) == (Cloudy, CheckDetails)
  {
  }

  /** A day whose description the table lacks shows the cloud without its emoji
      selector, unlike an event whose date the forecast does not reach. */
  lemma UnknownDescriptionIcon(weather: string)
    requires weather !in WeatherIcons
    ensures DayIcon(weather) == "\U{1F325}" && DayIcon(weather) != Cloudy
    ensures DayRecommendation(weather) == CheckDetails
  {
  }

  /** Every described weather has its own recommendation, not the fallback. */
  lemma KnownDescriptionRecommendation(weather: string)
    requires weather in WeatherIcons
    ensures DayRecommendation(weather) != CheckDetails && DayIcon(weather) == WeatherIcons[weather].0
  {
  }
}
