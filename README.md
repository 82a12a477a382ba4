# TravelDashboard rules in Dafny

TravelDashboard is a Streamlit travel planner: one file, `main.py`. It searches
flight offers (Amadeus), events (Ticketmaster) and the weather forecast
(OpenWeather), and shows them side by side. Most of the file is user interface,
HTTP and plotting. This project models the rules inside it that decide what gets
shown. Each one takes a remote reply as an input value.

- `Flights` (flights.dfy): the query that `search_flights` sends, the three
  outcomes of its reply, and the stop-count filter. The filter keeps an offer as
  soon as one of its itineraries has the stop count the policy asks for.
- `Duration` (duration.dfy): `format_duration` on ISO 8601 durations of the form
  `PT<h>H<m>M` (ISO 8601, section 4.4.3.2). It is built from models of Python's
  slicing, `str.split`, `str.replace` and `int`.
- `Events` (events.dfy): `get_all_events`. The outer loop goes over the
  categories and the inner loop over the later pages, and the result is sorted by
  local date. The remote search is a function from (category, page parameter) to
  its reply.
- `Sorting` (sorting.dfy): Python's string order and a stable sort by key. This is
  the model of `list.sort(key=...)`.
- `Forecast` (forecast.dfy):
  - the 3-day and extended outlooks: first sample per date wins, with a cap of 3
    or 14 dates;
  - the 24-hour window of the line graph;
  - the per-date summary on the event page, and the lookup that gives each event
    its icon and recommendation.
- `Filtering` (filtering.dfy) and `Wrappers` (wrappers.dfy): an order-keeping
  filter with its lemmas, and `Option`/`Result`.

The loops of the source are methods with loops. Each method is proved equal to a
specification function:
- `FilterByStops` to `Kept`;
- `GetAllEvents` to `SortBy(CrawlAll(...))`;
- the outlook loops to `Outlook`;
- `HourlyForecast` to `Window`;
- `DailyForecast` to the predicate `DailyOf`.

The properties are lemmas about those functions. `format_duration` has no loop
and no mutation, so it is a function.

The functions that the lemmas are about:
- `Duration.FormatDuration` is `format_duration` as written (main.py:154-160). `Duration.FormatDurationFixed` is the corrected version.
- `Events.CrawlAll`, `Events.Step` and `Events.LaterPages` are the category loop, one category, and the later-page loop of `get_all_events` (main.py:60-77).
- `Forecast.FirstPerDate` and `Forecast.Outlook` are the outlook reduction. `Forecast.ThreeDayEntryOf` and `Forecast.LongTermEntryOf` build its records.
- `Forecast.Window` is the 24-hour filter.
- `Forecast.DayIcon` and `Forecast.DayRecommendation` are the table lookups of the daily map (main.py:575-576).
- `Forecast.EventWeather` is the event lookup with its defaults (main.py:594-596).

Two behaviours are modelled as the code has them:
- **The page parameter is never reset.** `params['page']` is set by the inner
  loop of `get_all_events` and never cleared. The first request for a later
  category therefore carries the page number left by the one before
  (`Events.PageCarriedAcrossCategories`).
- **Outlooks do not aggregate.** They keep the first sample of each date. Its
  `temp_max`/`temp_min` are not combined over the day
  (`Forecast.OutlookKeepsFirstSample`).

## Model

| member | source | states |
|---|---|---|
| Flights.SearchQuery | main.py:112-122 | The query is sent in USD with max 249 and carries origin, destination, date, adults and class. A return date is sent exactly when the trip is "Round-Trip" and a return date was given. |
| Flights.FilterByStops | main.py:131-142 | The nested loop with `break` returns exactly `Kept(flights, maxStops)`, the order-keeping selection of the offers that qualify. |
| Flights.SearchFlights | main.py:124-150 | A non-200 status or a non-JSON body gives no offers and no dictionaries. Otherwise it gives the filtered `data` (none when absent) and `dictionaries` (empty when absent). |
| Flights.KeptIff | main.py:133-141 | An offer is in the output iff it is an input offer and some itinerary has `len(segments) - 1` stops as the policy demands. |
| Flights.KeptIsOrderedSelection | main.py:131-142 | The output is the input at strictly increasing positions, and those positions are exactly the qualifying ones. |
| Flights.KeptOncePerOccurrence | main.py:140-141 | Because of the `break`, a qualifying offer appears in the output as often as in the input, never more. A non-qualifying offer never appears. |
| Flights.EmptyOfferDropped | main.py:133-140 | An offer with no itineraries is dropped under every policy, "All" included. |
| Flights.UnknownPolicyKeepsNothing | main.py:136-139 | A policy other than "All", "Non-stop", "1 Stop" and "2+ Stops" keeps nothing. |
| Flights.AllKeepsNonEmpty | main.py:136 | "All" keeps exactly the offers with at least one itinerary. |
| Flights.PoliciesPartition | main.py:137-139 | An itinerary with at least one leg matches exactly one of the three specific policies. An itinerary with no legs matches none. |
| Flights.OrAcrossItineraries | main.py:133-141 | An offer with a 1-leg outbound and a 3-leg inbound is kept under "Non-stop". A single 2-leg itinerary is not kept under "2+ Stops". |
| Duration.ParseInt | main.py:157-159 | `int` succeeds exactly on non-empty digit strings, giving their decimal value. Anything else raises `ValueError` on that text. |
| Duration.ParseShow | main.py:160 | Reading back the decimal text of a number gives that number. |
| Duration.Show | main.py:160 | The decimal text of a number is a non-empty digit string. |
| Duration.Split | main.py:157-158 | `str.split` on one character gives at least one part, and no part contains the separator. |
| Duration.JoinSplit | main.py:157-158 | Joining the parts of a split with the separator gives back the original string. |
| Duration.SplitAt | main.py:157 | Splitting `a + sep + b`, where `a` has no separator, gives `a` followed by the parts of `b`. |
| Duration.SplitLastSkipsPrefix | main.py:158 | When the text after a prefix contains the separator, the last part is the same with or without the prefix. |
| Duration.RemoveAll | main.py:158 | `replace("M", "")` leaves no 'M'. |
| Duration.RemoveAllAppend | main.py:158 | `replace` distributes over concatenation. |
| Duration.FormatHoursMinutes | main.py:154-160 | "PT<h>H<m>M" with digit strings h and m gives "<h> hours <m> minutes", with h and m read as decimals. |
| Duration.HoursOf | main.py:156-157 | The hours of "PT<h>H..." are h read as a decimal. |
| Duration.MinutesOf | main.py:158-159 | The minutes of "PT<h>H<m>M" are m read as a decimal. |
| Duration.FormatHoursMinutesShow | main.py:154-160 | Format round trip: the duration written from numbers h and m formats to the phrase for exactly h and m. |
| Duration.FormatHoursOnly | main.py:154-160 | "PT<h>H" gives "<h> hours 0 minutes". |
| Duration.FormatMinutesOnlyFails | main.py:156-159 | "PT<m>M" without an 'H' raises `ValueError` on "PT<m>", because the minutes text keeps the "PT". |
| Duration.ExampleHoursMinutes | main.py:154-160 | "PT2H30M" gives "2 hours 30 minutes". |
| Duration.ExampleHoursOnly | main.py:154-160 | "PT3H" gives "3 hours 0 minutes". |
| Duration.ExampleMinutesOnly | main.py:158 | "PT45M" raises `ValueError` on "PT45". |
| Duration.NoHoursThenNoMinutes | main.py:158 | Without an 'H', a PT-prefixed duration that has an 'M' never has readable minutes. |
| Duration.FixedMinutesOnly | main.py:158 | With the minutes cut after the first two characters, "PT<m>M" gives "0 hours <m> minutes". |
| Duration.FixedAgrees | main.py:154-160 | On every PT-prefixed duration the original formats, the fixed version gives the same text. |
| Sorting.LessIrreflexive | main.py:78 | Python's string order is irreflexive. |
| Sorting.LessTrichotomy | main.py:78 | Of two distinct strings, exactly one is smaller. |
| Sorting.LessTransitive | main.py:78 | String order is transitive. |
| Sorting.LessEqTransitive | main.py:78 | Not-greater is transitive. |
| Sorting.Insert | main.py:78 | Inserting adds exactly that element: the multiset of the result is the old one plus it. |
| Sorting.SortBy | main.py:78 | The sort is a permutation of its input. |
| Sorting.InsertSorted | main.py:78 | Inserting into a sorted sequence keeps it sorted. |
| Sorting.SortBySorted | main.py:78 | The sort output is ordered by key. |
| Sorting.InsertStable | main.py:78 | Inserting keeps the relative order of elements with equal keys. |
| Sorting.SortByStable | main.py:78 | The sort is stable: for every key, the elements with that key keep their input order. |
| Events.GetAllEvents | main.py:50-79 | The method with two loops returns exactly the stable date sort of `CrawlAll`, the specification of the category and page loops. |
| Events.HaltedStays | main.py:76-77 | After the outer `break`, later categories change nothing. |
| Events.FirstPageFailureStops | main.py:62-77 | A non-200 first reply for a category stops that category and all later ones. Events gathered before are kept. |
| Events.HaltedIff | main.py:62-77 | The crawl is cut short iff some reached category's first request fails. A later-page failure never stops later categories. |
| Events.PrefixKept | main.py:65-73 | Events gathered for the first i categories are a prefix of the final concatenation. |
| Events.LaterPagesAllServed | main.py:67-74 | When all later pages are served, the inner loop appends pages number+1 .. totalPages-1 in order and leaves the page parameter at the last page. |
| Events.LaterPagesFailAt | main.py:67-71 | When page k is the first later page that fails, pages before k are kept, pagination of that category ends, and the page parameter stays at k. |
| Events.ResultOrder | main.py:78 | The result is sorted by `localDate`, is a permutation of everything fetched, and keeps same-date events in fetch order. |
| Events.PageCarriedAcrossCategories | main.py:61-68 | With "Music" on two pages, the "Sports" request goes out for page 1. When it fails, the crawl ends with both Music pages. |
| Filtering.Keep | main.py:131-142 | An order-keeping filter never lengthens its input. |
| Filtering.KeepMembership | main.py:131-142 | An element survives the filter iff it is in the input and passes the test. |
| Filtering.KeepCount | main.py:131-142 | A passing element is kept once per occurrence. A failing element is never kept. |
| Filtering.KeptPositionsSpec | main.py:131-142 | The kept elements are the input at increasing positions, exactly the passing ones. |
| Filtering.MapSeq | main.py:289-298 | Building one record per selected sample gives a sequence of the same length, where each record is built from the sample at its position. |
| Filtering.MapSeqSnoc | main.py:289-298 | Appending a new record extends the records of the samples taken so far. |
| Forecast.LowerCapitalize | main.py:285-286 | Lower-casing a capitalized description gives the lower-cased description. |
| Forecast.ThreeDayIcon | main.py:285-286 | The 3-day icon is the table's icon for the lower-cased description, or "🌤️" when the table lacks it. |
| Forecast.FirstIndexOf | main.py:288 | It returns the position of the first sample with a given date. |
| Forecast.FirstIndexUnique | main.py:288 | That first position is unique. |
| Forecast.FirstIndexExtends | main.py:288 | A date seen in a prefix has the same first position, and the same first sample, in the whole sequence. |
| Forecast.FirstPerDateCovers | main.py:288-298 | The first-per-date reduction covers exactly the dates of the samples. |
| Forecast.FirstPerDateDistinct | main.py:288 | No date appears twice in the reduction. |
| Forecast.FirstPerDateFromFirstSamples | main.py:288-298 | Each entry is the first sample of its date, and entries follow the order of first occurrence. |
| Forecast.FirstPerDatePrefix | main.py:279-301 | Reducing a prefix gives a prefix of the full reduction. |
| Forecast.OutlookBounded | main.py:300-301 | An outlook has at most the cap's number of entries. |
| Forecast.OutlookDistinct | main.py:288 | Outlook dates are pairwise distinct. |
| Forecast.OutlookFirstSamples | main.py:288-298 | Each outlook entry comes from the first sample of its date, in order of first occurrence. |
| Forecast.OutlookComplete | main.py:279-301 | An outlook short of its cap shows every date of the samples. |
| Forecast.OutlookKeepsFirstSample | main.py:288-298 | A second sample of the same date changes nothing. Its temperatures are not combined with the first. |
| Forecast.FirstPerDateStep | main.py:288-289 | One more sample either repeats a date already taken, changing nothing, or is appended. |
| Forecast.OutlookStep | main.py:288-298 | One iteration of either outlook loop: a listed date changes nothing, an unlisted one appends the sample's entry. The `any` test is exactly "the date is already covered". |
| Forecast.OutlookAt | main.py:300-301 | Once the entries built so far reach the cap, they are the whole outlook. |
| Forecast.ThreeDayOutlook | main.py:278-301 | The loop with a `break` at 3 returns exactly the entries of `Outlook(samples, 3)`, one per element, each built from that sample (day, date, max, min, rain defaulting to 0, capitalized description, icon). |
| Forecast.LongTermOutlook | main.py:381-405 | The loop with a `break` at 14 returns exactly the entries of `Outlook(samples, 14)`, one per element, each built from that sample (date, max, min, rain, wind, humidity, capitalized description). |
| Forecast.HourlyForecast | main.py:340-356 | The loop returns one point per sample of `Window(samples, now)`, in order. |
| Forecast.WindowIff | main.py:345 | A sample is plotted iff it is an input sample with `now <= t <= now + 24h`. |
| Forecast.WindowIsOrderedSelection | main.py:343-356 | The plotted samples are the input at increasing positions, exactly those inside the window. |
| Forecast.WindowEdges | main.py:345 | A sample exactly 24 hours ahead is plotted. One 34 hours ahead is not. |
| Forecast.DailyForecast | main.py:567-580 | It builds a map with one key per sample date. Every temperature of a date lies between its low and high, and both are attained by some sample of that date. Its description, icon and recommendation come from the date's first sample. |
| Forecast.DailyStep | main.py:571-580 | Folding one sample into the map, by a new entry or by the running max/min update, keeps it a summary of the longer sequence. |
| Forecast.KeysStep | main.py:571-572 | The keys stay exactly the covered dates. |
| Forecast.BoundsStep | main.py:579-580 | Every temperature stays within its date's low and high. |
| Forecast.HighsStep | main.py:573-579 | Each high is still some sample's temperature of that date. |
| Forecast.LowsStep | main.py:573-580 | Each low is still some sample's temperature of that date. |
| Forecast.FirstsStep | main.py:572-578 | Description, icon and recommendation stay those of the date's first sample. |
| Forecast.DailyLowNotAboveHigh | main.py:579-580 | A day's low never exceeds its high. |
| Forecast.EventWeatherOfSamples | main.py:594-596 | An event dated d shows the icon and recommendation of d's first forecast sample. When the forecast lacks d, it shows "🌥️" and "Check weather details". |
| Forecast.UnknownDescriptionIcon | main.py:576-577 | A description the table lacks gets the cloud without its emoji selector (the first character of "🌥️"), unlike an absent date, and gets "Check weather details". |
| Forecast.KnownDescriptionRecommendation | main.py:24-32 | A known description gets the table's icon and a recommendation other than the fallback. |

## Left out

- The Streamlit pages, session state, maps and charts (main.py:162-272, 304-332, 357-376, 406-562, 581-593, 597-667) are presentation. This includes the price mean of `plot_flight_prices`. The daily-forecast block (main.py:563-580) and the event lookup (main.py:594-596) inside the page code are modelled.
- The remote calls to Amadeus, Ticketmaster, OpenWeather and Google Places, and the token request, are network I/O. Their replies are inputs.
- The CSV gazetteer (`load_city_data`) is file I/O.
- `get_hotels` is one remote call with no rule of its own.
- Floating point is not modelled:
  - temperatures arrive already rounded;
  - the extended outlook's `round(..., 1)` of rain and wind is not applied;
  - the hourly wind conversion (`* 3.6`) is not modelled, so a point has no wind field.
- Python's `round` and banker's rounding are not modelled.
- Dates are abstract. `strptime`/`strftime` formatting is not modelled. A sample's `date` identifies its calendar day, and `time` is an integer count of seconds. The outlooks compare formatted dates, and the formatting is one-to-one on calendar days.
- Duration.ParseInt: reads only ASCII digit strings. Signs, surrounding whitespace, underscores and non-ASCII digits, which Python's `int` also accepts, are failures here.
- Forecast.Lower: maps only ASCII letters; Python's full Unicode case mapping is not modelled.
- Forecast.Capitalize: maps only ASCII letters; Python's full Unicode case mapping is not modelled.
- A 200 reply to `get_all_events` whose body is not JSON is not modelled: `response.json()` (main.py:64, 72) would raise out of the function, and the search oracle `Events.Fetch` always returns a parsed `Events.Response`.
- Missing keys in a reply (`KeyError` on `flight["itineraries"]`, `page['number']`, `item["main"]`) are not modelled. The model assumes well-formed records. `get_all_events` replies carry their page envelope.
- Events.GetAllEvents: requires that the search reports the requested page and a fixed page count per category (`Paged`). Without that, the source's inner loop need not terminate.
- The request parameters of `get_all_events` other than `classificationName` and `page` are not modelled. They are fixed for one call.
- The event records, venues and images are not modelled beyond name, local date, venue name and URL. The rest is display.

## Findings

| source | as written | input that shows it | evidently intended | confidence | as-written member | corrected member |
|---|---|---|---|---|---|---|
| main.py:158 | the minutes are read from `duration_str.split("H")[-1]`. Without an 'H' this is the whole string, still starting with "PT", so `int` raises | "PT45M" | "0 hours 45 minutes": the minutes read after the same two-character cut as the hours | not executed | Duration.FormatMinutesOnlyFails | Duration.FixedMinutesOnly |
