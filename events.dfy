/** `get_all_events` in main.py: for each requested category, fetch the first page
    of the event search and then every later page the reply announces, and finally
    sort everything by the events' local start date. The remote search is a
    parameter, `fetch`, from (category, page parameter) to its reply. */
module Events {
  import opened Wrappers
  import opened Filtering
  import opened Sorting

  /** An event as the page lists it; `localDate` is `dates.start.localDate`. */
  datatype Event = Event(name: string, localDate: string, venueName: string, url: string)

  /** One reply: its status, the events of the page (`_embedded.events`, none when
      absent) and the page envelope (`page.number`, `page.totalPages`). */
  datatype Response = Response(status: int, events: seq<Event>, number: int, totalPages: int)

  /** The remote search: the category asked for, and the `page` parameter if one is set. */
  type Fetch = (string, Option<int>) -> Response

  /** What the crawl needs of the search to terminate: a successful reply to a request
      for page p reports page p, and all successful replies for one category report
      the same page count. */
  ghost predicate Paged(fetch: Fetch) {
    (forall c: string, p: int :: fetch(c, Some(p)).status == 200 ==> fetch(c, Some(p)).number == p)
    && (forall c: string, q1: Option<int>, q2: Option<int> ::
          fetch(c, q1).status == 200 && fetch(c, q2).status == 200 ==> fetch(c, q1).totalPages == fetch(c, q2).totalPages)
  }

  /** Events gathered so far and the `page` parameter as it is now. */
  datatype Pages = Pages(events: seq<Event>, page: Option<int>)

  /** The inner `while` loop: after a reply for page `number` of `total`, request page
      number + 1 until the last page; a failed reply ends the loop but leaves the
      `page` parameter at the page that failed. */
  function LaterPages(fetch: Fetch, category: string, page: Option<int>, number: int, total: int): Pages
    requires Paged(fetch)
    requires forall q :: fetch(category, q).status == 200 ==> fetch(category, q).totalPages == total
    decreases total - number
  {
    if number < total - 1 then
      var next := Some(number + 1);
      var reply := fetch(category, next);
      if reply.status != 200 then Pages([], next)
      else
        var rest := LaterPages(fetch, category, next, reply.number, reply.totalPages);
        Pages(reply.events + rest.events, rest.page)
    else Pages([], page)
  }

  /** The state of the outer loop: the events so far, the `page` parameter (never
      reset between categories), and whether the loop has been left by `break`. */
  datatype Crawl = Crawl(events: seq<Event>, page: Option<int>, halted: bool)

  /** One category: its first request carries the current `page` parameter; a failed
      reply leaves the outer loop, a successful one is followed by the later pages. */
  function Step(fetch: Fetch, before: Crawl, category: string): Crawl
    requires Paged(fetch)
  {
    var reply := fetch(category, before.page);
    if reply.status != 200 then Crawl(before.events, before.page, true)
    else
      var more := LaterPages(fetch, category, before.page, reply.number, reply.totalPages);
      Crawl(before.events + reply.events + more.events, more.page, false)
  }

  /** The outer loop over the categories, in order, until one first request fails. */
  function CrawlAll(fetch: Fetch, categories: seq<string>): Crawl
    requires Paged(fetch)
  {
    if categories == [] then Crawl([], None, false)
    else
      var before := CrawlAll(fetch, categories[..|categories| - 1]);
      if before.halted then before else Step(fetch, before, categories[|categories| - 1])
  }

  /** The sort key, `dates.start.localDate`. */
  function DateKey(e: Event): string {
    e.localDate
  }

  /** `get_all_events`: the crawl, then `events.sort(key=localDate)`. */
  method GetAllEvents(fetch: Fetch, categories: seq<string>) returns (events: seq<Event>)
    requires Paged(fetch)
    ensures events == SortBy(CrawlAll(fetch, categories).events, DateKey)
  {
    events := [];
    var page: Option<int> := None;
    for i := 0 to |categories|
      invariant CrawlAll(fetch, categories[..i]) == Crawl(events, page, false)
    {
      assert categories[..i + 1][..i] == categories[..i];
      var category := categories[i];
      var reply := fetch(category, page);
      if reply.status == 200 {
        ghost var first := page;
        events := events + reply.events;
        ghost var start := events;
        var number, total := reply.number, reply.totalPages;
        ghost var target := LaterPages(fetch, category, first, number, total);
        while number < total - 1
          invariant forall q :: fetch(category, q).status == 200 ==> fetch(category, q).totalPages == total
          invariant events + LaterPages(fetch, category, page, number, total).events == start + target.events
          invariant LaterPages(fetch, category, page, number, total).page == target.page
          decreases total - number
        {
          page := Some(number + 1);
          reply := fetch(category, page);
          if reply.status != 200 {
            break;
          }
          events := events + reply.events;
          number, total := reply.number, reply.totalPages;
        }
        assert events == start + target.events && page == target.page;
      } else {
        HaltedStays(fetch, categories, i + 1);
        break;
      }
    }
    assert categories[..|categories|] == categories;
    events := SortBy(events, DateKey);
  }

  /** Once the outer loop has been left, later categories change nothing. */
  lemma {:induction false} HaltedStays(fetch: Fetch, categories: seq<string>, i: nat)
    requires Paged(fetch)
    requires i <= |categories| && CrawlAll(fetch, categories[..i]).halted
    ensures CrawlAll(fetch, categories) == CrawlAll(fetch, categories[..i])
  {
    if i < |categories| {
      var front := categories[..|categories| - 1];
      assert front[..i] == categories[..i];
      HaltedStays(fetch, front, i);
    } else {
      assert categories[..i] == categories;
    }
  }

  /** A failed first request for category i ends the crawl: nothing of that category
      or of any later one is fetched, and everything fetched before is kept. */
  lemma FirstPageFailureStops(fetch: Fetch, categories: seq<string>, i: nat)
    requires Paged(fetch) && i < |categories|
    requires !CrawlAll(fetch, categories[..i]).halted
    requires fetch(categories[i], CrawlAll(fetch, categories[..i]).page).status != 200
    ensures CrawlAll(fetch, categories).halted
    ensures CrawlAll(fetch, categories).events == CrawlAll(fetch, categories[..i]).events
  {
    assert categories[..i + 1][..i] == categories[..i];
    HaltedStays(fetch, categories, i + 1);
  }

  /** Category i is reached and its first request fails. */
  ghost predicate FailsFirst(fetch: Fetch, categories: seq<string>, i: int)
    requires Paged(fetch) && 0 <= i < |categories|
  {
    !CrawlAll(fetch, categories[..i]).halted
    && fetch(categories[i], CrawlAll(fetch, categories[..i]).page).status != 200
  }

  /** The crawl is cut short exactly when some category's first request fails: a
      failure on a later page never stops the categories after it. */
  lemma {:induction false} HaltedIff(fetch: Fetch, categories: seq<string>)
    requires Paged(fetch)
    ensures CrawlAll(fetch, categories).halted <==>
      exists i :: 0 <= i < |categories| && FailsFirst(fetch, categories, i)
  {
    if categories != [] {
      var n := |categories| - 1;
      var front := categories[..n];
      HaltedIff(fetch, front);
      forall i | 0 <= i < n ensures FailsFirst(fetch, categories, i) == FailsFirst(fetch, front, i) {
        assert categories[..i] == front[..i];
      }
      if CrawlAll(fetch, front).halted {
        var i :| 0 <= i < n && FailsFirst(fetch, front, i);
        assert FailsFirst(fetch, categories, i);
      } else {
        assert CrawlAll(fetch, categories).halted == FailsFirst(fetch, categories, n);
      }
    }
  }

  /** Events already fetched are never dropped: the crawl over the first i categories
      is a prefix of the crawl over all of them. */
  lemma {:induction false} PrefixKept(fetch: Fetch, categories: seq<string>, i: nat)
    requires Paged(fetch) && i <= |categories|
    ensures CrawlAll(fetch, categories[..i]).events <= CrawlAll(fetch, categories).events
  {
    if i < |categories| {
      var front := categories[..|categories| - 1];
      assert front[..i] == categories[..i];
      PrefixKept(fetch, front, i);
    } else {
      assert categories[..i] == categories;
    }
  }

  /** The events of pages lo .. hi - 1 of a category, in page order. */
  function PageRange(fetch: Fetch, category: string, lo: int, hi: int): seq<Event>
    decreases hi - lo
  {
    if lo >= hi then [] else fetch(category, Some(lo)).events + PageRange(fetch, category, lo + 1, hi)
  }

  /** When every later page is served, the inner loop collects all of them in order
      and leaves the `page` parameter at the last page. */
  lemma {:induction false} LaterPagesAllServed(fetch: Fetch, category: string, page: Option<int>, number: int, total: int)
    requires Paged(fetch)
    requires forall q :: fetch(category, q).status == 200 ==> fetch(category, q).totalPages == total
    requires forall j :: number < j < total ==> fetch(category, Some(j)).status == 200
    ensures LaterPages(fetch, category, page, number, total) ==
      Pages(PageRange(fetch, category, number + 1, total), if number < total - 1 then Some(total - 1) else page)
    decreases total - number
  {
    if number < total - 1 {
      LaterPagesAllServed(fetch, category, Some(number + 1), number + 1, total);
    }
  }

  /** When page k is the first later page that fails, the inner loop keeps the pages
      before k and leaves the `page` parameter at k for the next category. */
  lemma {:induction false} LaterPagesFailAt(fetch: Fetch, category: string, page: Option<int>, number: int, total: int, k: int)
    requires Paged(fetch)
    requires forall q :: fetch(category, q).status == 200 ==> fetch(category, q).totalPages == total
    requires number < k < total
    requires forall j :: number < j < k ==> fetch(category, Some(j)).status == 200
    requires fetch(category, Some(k)).status != 200
    ensures LaterPages(fetch, category, page, number, total) == Pages(PageRange(fetch, category, number + 1, k), Some(k))
    decreases total - number
  {
    if number + 1 < k {
      LaterPagesFailAt(fetch, category, Some(number + 1), number + 1, total, k);
    }
  }

  /** The result of `get_all_events` is ordered by local date, holds every fetched
      event once per fetch, and keeps events of the same date in fetch order. */
  lemma ResultOrder(fetch: Fetch, categories: seq<string>, date: string)
    requires Paged(fetch)
    ensures SortedBy(SortBy(CrawlAll(fetch, categories).events, DateKey), DateKey)
    ensures multiset(SortBy(CrawlAll(fetch, categories).events, DateKey)) == multiset(CrawlAll(fetch, categories).events)
    ensures Keep(SortBy(CrawlAll(fetch, categories).events, DateKey), HasKey(DateKey, date)) ==
      Keep(CrawlAll(fetch, categories).events, HasKey(DateKey, date))
  {
    SortBySorted(CrawlAll(fetch, categories).events, DateKey);
    SortByStable(CrawlAll(fetch, categories).events, DateKey, date);
  }

  /** A search where "Music" has two pages and "Sports" one. */
  function MusicAndSports(m0: Event, m1: Event, s0: Event): Fetch {
    (c: string, p: Option<int>) =>
      if c == "Music" && p == None then Response(200, [m0], 0, 2)
      else if c == "Music" && p == Some(1) then Response(200, [m1], 1, 2)
      else if c == "Sports" && p == None then Response(200, [s0], 0, 1)
      else Response(404, [], 0, 0)
  }

  /** Because the `page` parameter is not reset, the "Sports" request goes out for
      page 1, fails, and ends the crawl: both "Music" pages are kept and the
      "Sports" page 0 is never asked for. */
  lemma PageCarriedAcrossCategories(m0: Event, m1: Event, s0: Event)
    ensures Paged(MusicAndSports(m0, m1, s0))
    ensures CrawlAll(MusicAndSports(m0, m1, s0), ["Music"]) == Crawl([m0, m1], Some(1), false)
    ensures CrawlAll(MusicAndSports(m0, m1, s0), ["Music", "Sports"]) == Crawl([m0, m1], Some(1), true)
  {
    var fetch := MusicAndSports(m0, m1, s0);
    assert Paged(fetch);
    var cats := ["Music", "Sports"];
    assert cats[..1] == ["Music"];
    assert ["Music"][..0] == [];
    assert fetch("Music", None) == Response(200, [m0], 0, 2);
    assert fetch("Music", Some(1)) == Response(200, [m1], 1, 2);
    assert LaterPages(fetch, "Music", Some(1), 1, 2) == Pages([], Some(1));
    assert LaterPages(fetch, "Music", None, 0, 2) == Pages([m1], Some(1));
    assert fetch("Sports", Some(1)).status == 404;
  }
}
